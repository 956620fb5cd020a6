// Customer cohorts: what a cohort month contains, its retention, and the regrouping of stored cohort rows
// (packages/api/src/analytics/revenue-analytics.service.ts, updateCohort and getCohortAnalysis).
module Cohorts {
  import opened Wrappers
  import opened Numbers
  import opened Sums
  import opened Calendar
  import opened OrderedMaps
  import opened Mrr

  // ---------- The months that cohorts cover ----------

  // Midnight at the start of the first day of a month.
  function CohortStart(y: int, m: nat): int
    requires m < 12
  {
    Instant(MakeDay(y, m, 1), 0)
  }

  // Day 0 of the next month: midnight at the start of the last day of the month.
  function CohortEnd(y: int, m: nat): int
    requires m < 12
  {
    Instant(MakeDay(y, m + 1, 0), 0)
  }

  predicate InCohort(t: int, y: int, m: nat)
    requires m < 12
  {
    CohortStart(y, m) <= t <= CohortEnd(y, m)
  }

  lemma CohortRange(y: int, m: nat)
    requires m < 12
    ensures CohortStart(y, m) == Instant(FirstDay(y, m), 0)
    ensures CohortEnd(y, m) == Instant(FirstDay(y, m) + DaysInMonth(y, m) - 1, 0)
  {
    hide FirstDay;
    hide DaysInMonth;
    MakeDayInYear(y, m, 1);
    NextMonthSameDate(y, m, 0);
  }

  predicate AfterMidnightOfLastDay(t: int) {
    Date(Day(t)) == DaysInMonth(Year(Day(t)), Month(Day(t))) && TimeWithinDay(t) > 0
  }

  lemma InItsOwnMonth(t: int)
    ensures InCohort(t, Year(Day(t)), Month(Day(t))) <==> !AfterMidnightOfLastDay(t)
  {
    CohortRange(Year(Day(t)), Month(Day(t)));
  }

  lemma InNoOtherMonth(t: int, y: int, m: nat)
    requires m < 12 && InCohort(t, y, m)
    ensures Year(Day(t)) == y && Month(Day(t)) == m
  {
    CohortRange(y, m);
    DateFits(y, m, Day(t) - FirstDay(y, m) + 1);
  }

  // An instant lies in the cohort of its own month or of none, and of none exactly when it comes after
  // midnight on the last day of the month: a customer won on that day is in no cohort.
  lemma CohortMissesLastDay(t: int)
    ensures (exists y, m: nat | m < 12 :: InCohort(t, y, m)) <==> !AfterMidnightOfLastDay(t)
  {
    InItsOwnMonth(t);
    if exists y, m: nat | m < 12 :: InCohort(t, y, m) {
      var y, m: nat :| m < 12 && InCohort(t, y, m);
      InNoOtherMonth(t, y, m);
    }
  }

  // ---------- The figures of one cohort ----------

  datatype NewSubscriptionEvent = NewSubscriptionEvent(
    workspaceId: string, customerId: string, occurredAt: int, amount: int, newMrr: Option<int>)

  datatype CohortFigures = CohortFigures(
    customersAtStart: nat,
    customersRemaining: nat,
    mrrAtStart: int,
    mrrRemaining: int,
    customerRetention: int,
    revenueRetention: int)

  predicate Acquired(event: NewSubscriptionEvent, workspaceId: string, y: int, m: nat)
    requires m < 12
  {
    event.workspaceId == workspaceId && InCohort(event.occurredAt, y, m)
  }

  function CohortCustomers(events: seq<NewSubscriptionEvent>, workspaceId: string, y: int, m: nat): set<string>
    requires m < 12
  {
    set i | 0 <= i < |events| && Acquired(events[i], workspaceId, y, m) :: events[i].customerId
  }

  function StartMrr(events: seq<NewSubscriptionEvent>, workspaceId: string, y: int, m: nat): int
    requires m < 12
  {
    Sum(events, (event: NewSubscriptionEvent) =>
      if Acquired(event, workspaceId, y, m) then event.newMrr.GetOr(event.amount) else 0)
  }

  // The active subscriptions of the cohort's customers.
  function Remaining(subscriptions: seq<SubscriptionRow>, customers: set<string>): seq<SubscriptionRow> {
    if subscriptions == [] then []
    else
      var n := |subscriptions| - 1;
      Remaining(subscriptions[..n], customers)
      + if subscriptions[n].customerId in customers then [subscriptions[n]] else []
  }

  function CustomersOf(subscriptions: seq<SubscriptionRow>): set<string> {
    set i | 0 <= i < |subscriptions| :: subscriptions[i].customerId
  }

  function Retention(part: int, whole: int): int {
    if whole > 0 then Round(BasisPoints(part, whole)) else 0
  }

  // What one run computes; nothing for an empty cohort.
  function Figures(
      events: seq<NewSubscriptionEvent>, subscriptions: seq<SubscriptionRow>, workspaceId: string, y: int, m: nat)
    : Option<CohortFigures>
    requires m < 12
  {
    var customers := CohortCustomers(events, workspaceId, y, m);
    if customers == {} then
      None
    else
      var remaining := Remaining(ActiveOf(subscriptions, workspaceId), customers);
      var mrrAtStart := StartMrr(events, workspaceId, y, m);
      Some(CohortFigures(
        |customers|, |CustomersOf(remaining)|, mrrAtStart, TotalMrr(remaining),
        Retention(|CustomersOf(remaining)|, |customers|), Retention(TotalMrr(remaining), mrrAtStart)))
  }

  // A row is created with all figures; a later run rewrites all but the two of the start.
  function Upsert(stored: Option<CohortFigures>, figures: Option<CohortFigures>): Option<CohortFigures> {
    if figures.None? then stored
    else if stored.None? then figures
    else
      Some(figures.value.(customersAtStart := stored.value.customersAtStart, mrrAtStart := stored.value.mrrAtStart))
  }

  method UpdateCohort(
      stored: Option<CohortFigures>,
      events: seq<NewSubscriptionEvent>, subscriptions: seq<SubscriptionRow>, workspaceId: string, y: int, m: nat)
    returns (row: Option<CohortFigures>)
    requires m < 12
    ensures row == Upsert(stored, Figures(events, subscriptions, workspaceId, y, m))
  {
    var customers := CohortCustomers(events, workspaceId, y, m);
    var customersAtStart := |customers|;
    if customersAtStart == 0 {
      return stored;
    }
    var mrrAtStart := StartMrr(events, workspaceId, y, m);
    var remaining := Remaining(ActiveOf(subscriptions, workspaceId), customers);
    var customersRemaining := |CustomersOf(remaining)|;
    var mrrRemaining := 0;
    for i := 0 to |remaining|
      invariant mrrRemaining == TotalMrr(remaining[..i])
    {
      assert remaining[..i + 1][..i] == remaining[..i];
      mrrRemaining := mrrRemaining + MonthlyAmount(remaining[i]);
    }
    assert remaining[..|remaining|] == remaining;
    var customerRetention := Retention(customersRemaining, customersAtStart);
    var revenueRetention := Retention(mrrRemaining, mrrAtStart);
    if stored.None? {
      row := Some(CohortFigures(
        customersAtStart, customersRemaining, mrrAtStart, mrrRemaining, customerRetention, revenueRetention));
    } else {
      row := Some(stored.value.(
        customersRemaining := customersRemaining, mrrRemaining := mrrRemaining,
        customerRetention := customerRetention, revenueRetention := revenueRetention));
    }
  }

  // One run is consistent: no more customers remain than there were, and their retention is a rate.
  lemma FiguresAreBounded(
      events: seq<NewSubscriptionEvent>, subscriptions: seq<SubscriptionRow>, workspaceId: string, y: int, m: nat)
    requires m < 12 && Figures(events, subscriptions, workspaceId, y, m).Some?
    ensures var figures := Figures(events, subscriptions, workspaceId, y, m).value;
      && figures.customersRemaining <= figures.customersAtStart
      && 0 <= figures.customerRetention <= 10000
  {
    var customers := CohortCustomers(events, workspaceId, y, m);
    RemainingIsSubset(ActiveOf(subscriptions, workspaceId), customers);
    RetentionIsRate(
      |CustomersOf(Remaining(ActiveOf(subscriptions, workspaceId), customers))|, |customers|);
  }

  // ---------- The stored row over several runs ----------

  datatype CohortRun = CohortRun(events: seq<NewSubscriptionEvent>, subscriptions: seq<SubscriptionRow>)

  function FiguresOf(run: CohortRun, workspaceId: string, y: int, m: nat): Option<CohortFigures>
    requires m < 12
  {
    Figures(run.events, run.subscriptions, workspaceId, y, m)
  }

  function StoredAfter(runs: seq<CohortRun>, workspaceId: string, y: int, m: nat): Option<CohortFigures>
    requires m < 12
  {
    if runs == [] then None
    else
      Upsert(
        StoredAfter(runs[..|runs| - 1], workspaceId, y, m), FiguresOf(runs[|runs| - 1], workspaceId, y, m))
  }

  function FirstFigures(runs: seq<CohortRun>, workspaceId: string, y: int, m: nat): Option<CohortFigures>
    requires m < 12
  {
    if runs == [] then None
    else
      var earlier := FirstFigures(runs[..|runs| - 1], workspaceId, y, m);
      if earlier.Some? then earlier else FiguresOf(runs[|runs| - 1], workspaceId, y, m)
  }

  function LastFigures(runs: seq<CohortRun>, workspaceId: string, y: int, m: nat): Option<CohortFigures>
    requires m < 12
  {
    if runs == [] then None
    else
      var last := FiguresOf(runs[|runs| - 1], workspaceId, y, m);
      if last.Some? then last else LastFigures(runs[..|runs| - 1], workspaceId, y, m)
  }

  lemma {:induction false} RowMixesTwoRuns(runs: seq<CohortRun>, workspaceId: string, y: int, m: nat)
    requires m < 12
    ensures var row := StoredAfter(runs, workspaceId, y, m);
      var first, last := FirstFigures(runs, workspaceId, y, m), LastFigures(runs, workspaceId, y, m);
      && (row.Some? <==> first.Some?) && (row.Some? <==> last.Some?)
      && (row.Some? ==>
            row.value == last.value.(
              customersAtStart := first.value.customersAtStart, mrrAtStart := first.value.mrrAtStart))
  {
    hide Figures;
    if runs != [] {
      RowMixesTwoRuns(runs[..|runs| - 1], workspaceId, y, m);
    }
  }

  // So the stored retention is always a rate.
  lemma StoredRetentionIsRate(runs: seq<CohortRun>, workspaceId: string, y: int, m: nat)
    requires m < 12 && StoredAfter(runs, workspaceId, y, m).Some?
    ensures 0 <= StoredAfter(runs, workspaceId, y, m).value.customerRetention <= 10000
  {
    hide Figures;
    RowMixesTwoRuns(runs, workspaceId, y, m);
    LastIsBounded(runs, workspaceId, y, m);
  }

  lemma {:induction false} LastIsBounded(runs: seq<CohortRun>, workspaceId: string, y: int, m: nat)
    requires m < 12 && LastFigures(runs, workspaceId, y, m).Some?
    ensures 0 <= LastFigures(runs, workspaceId, y, m).value.customerRetention <= 10000
  {
    hide Figures;
    var run := runs[|runs| - 1];
    if FiguresOf(run, workspaceId, y, m).Some? {
      FiguresAreBounded(run.events, run.subscriptions, workspaceId, y, m);
    } else {
      LastIsBounded(runs[..|runs| - 1], workspaceId, y, m);
    }
  }

  // ---------- When the stored counts are in order ----------

  // The cohort as the first run found it that found any customers, and as the last such run found it.
  function FirstCohort(runs: seq<CohortRun>, workspaceId: string, y: int, m: nat): set<string>
    requires m < 12
  {
    if runs == [] then {}
    else
      var earlier := FirstCohort(runs[..|runs| - 1], workspaceId, y, m);
      if earlier != {} then earlier else CohortCustomers(runs[|runs| - 1].events, workspaceId, y, m)
  }

  function LastCohort(runs: seq<CohortRun>, workspaceId: string, y: int, m: nat): set<string>
    requires m < 12
  {
    if runs == [] then {}
    else
      var last := CohortCustomers(runs[|runs| - 1].events, workspaceId, y, m);
      if last != {} then last else LastCohort(runs[..|runs| - 1], workspaceId, y, m)
  }

  predicate InOrder(runs: seq<CohortRun>, workspaceId: string, y: int, m: nat)
    requires m < 12
  {
    var row := StoredAfter(runs, workspaceId, y, m);
    row.Some? ==> row.value.customersRemaining <= row.value.customersAtStart
  }

  predicate SameEvents(runs: seq<CohortRun>, others: seq<CohortRun>) {
    |runs| == |others| && forall i | 0 <= i < |runs| :: runs[i].events == others[i].events
  }

  // The events alone promise the order, whatever subscriptions each run meets.
  ghost predicate AlwaysInOrder(runs: seq<CohortRun>, workspaceId: string, y: int, m: nat)
    requires m < 12
  {
    forall others | SameEvents(runs, others) :: InOrder(others, workspaceId, y, m)
  }

  lemma {:induction false} CohortsFollowEvents(
      runs: seq<CohortRun>, others: seq<CohortRun>, workspaceId: string, y: int, m: nat)
    requires m < 12 && SameEvents(runs, others)
    ensures FirstCohort(runs, workspaceId, y, m) == FirstCohort(others, workspaceId, y, m)
    ensures LastCohort(runs, workspaceId, y, m) == LastCohort(others, workspaceId, y, m)
  {
    hide CohortCustomers;
    if runs != [] {
      CohortsFollowEvents(runs[..|runs| - 1], others[..|runs| - 1], workspaceId, y, m);
    }
  }

  lemma {:induction false} FiguresAreOfCohorts(runs: seq<CohortRun>, workspaceId: string, y: int, m: nat)
    requires m < 12
    ensures var first, last := FirstFigures(runs, workspaceId, y, m), LastFigures(runs, workspaceId, y, m);
      && (first.Some? <==> FirstCohort(runs, workspaceId, y, m) != {})
      && (last.Some? <==> LastCohort(runs, workspaceId, y, m) != {})
      && (first.Some? ==> first.value.customersAtStart == |FirstCohort(runs, workspaceId, y, m)|)
      && (last.Some? ==> last.value.customersRemaining <= |LastCohort(runs, workspaceId, y, m)|)
  {
    hide InCohort;
    if runs != [] {
      var n := |runs| - 1;
      FiguresAreOfCohorts(runs[..n], workspaceId, y, m);
      if FiguresOf(runs[n], workspaceId, y, m).Some? {
        FiguresAreBounded(runs[n].events, runs[n].subscriptions, workspaceId, y, m);
      }
    }
  }

  // One active subscription for each customer.
  ghost function EveryoneStays(customers: set<string>, workspaceId: string): (subscriptions: seq<SubscriptionRow>)
    ensures forall i | 0 <= i < |subscriptions| ::
      IsActive(subscriptions[i], workspaceId) && subscriptions[i].customerId in customers
    ensures CustomersOf(subscriptions) == customers
  {
    if customers == {} then []
    else
      var customer :| customer in customers;
      var others := EveryoneStays(customers - {customer}, workspaceId);
      var subscriptions := others + [SubscriptionRow(workspaceId, customer, "", "active", None)];
      OneMoreCustomer(others, subscriptions[|others|]);
      subscriptions
  }

  lemma OneMoreCustomer(subscriptions: seq<SubscriptionRow>, subscription: SubscriptionRow)
    ensures CustomersOf(subscriptions + [subscription]) == CustomersOf(subscriptions) + {subscription.customerId}
  {
    var longer := subscriptions + [subscription];
    forall customer | customer in CustomersOf(subscriptions)
      ensures customer in CustomersOf(longer)
    {
      var i :| 0 <= i < |subscriptions| && subscriptions[i].customerId == customer;
      assert longer[i] == subscriptions[i];
    }
    assert longer[|subscriptions|] == subscription;
  }

  lemma {:induction false} NoneIsDropped(
      subscriptions: seq<SubscriptionRow>, customers: set<string>, workspaceId: string)
    requires forall i | 0 <= i < |subscriptions| ::
      IsActive(subscriptions[i], workspaceId) && subscriptions[i].customerId in customers
    ensures ActiveOf(subscriptions, workspaceId) == subscriptions == Remaining(subscriptions, customers)
  {
    if subscriptions != [] {
      NoneIsDropped(subscriptions[..|subscriptions| - 1], customers, workspaceId);
    }
  }

  // The same events, met by subscriptions under which nobody has left.
  ghost function AllStay(runs: seq<CohortRun>, workspaceId: string, y: int, m: nat): (others: seq<CohortRun>)
    requires m < 12
    ensures SameEvents(runs, others)
  {
    seq(|runs|, i requires 0 <= i < |runs| =>
      CohortRun(
        runs[i].events, EveryoneStays(CohortCustomers(runs[i].events, workspaceId, y, m), workspaceId)))
  }

  lemma {:induction false} AllOfLastRemain(runs: seq<CohortRun>, workspaceId: string, y: int, m: nat)
    requires m < 12 && LastCohort(runs, workspaceId, y, m) != {}
    ensures var last := LastFigures(AllStay(runs, workspaceId, y, m), workspaceId, y, m);
      last.Some? && last.value.customersRemaining == |LastCohort(runs, workspaceId, y, m)|
  {
    hide CohortCustomers;
    var n := |runs| - 1;
    var others := AllStay(runs, workspaceId, y, m);
    var customers := CohortCustomers(runs[n].events, workspaceId, y, m);
    if customers != {} {
      NoneIsDropped(EveryoneStays(customers, workspaceId), customers, workspaceId);
    } else {
      AllOfLastRemain(runs[..n], workspaceId, y, m);
      assert others[..n] == AllStay(runs[..n], workspaceId, y, m);
    }
  }

  // After any sequence of runs the stored counts are sure to be in order exactly when the last run that found
  // customers found no more of them than the first one.
  lemma StoredRowExactly(runs: seq<CohortRun>, workspaceId: string, y: int, m: nat)
    requires m < 12
    ensures AlwaysInOrder(runs, workspaceId, y, m)
      <==> |LastCohort(runs, workspaceId, y, m)| <= |FirstCohort(runs, workspaceId, y, m)|
  {
    hide Figures;
    hide CohortCustomers;
    var first, last := FirstCohort(runs, workspaceId, y, m), LastCohort(runs, workspaceId, y, m);
    if |last| <= |first| {
      forall others | SameEvents(runs, others)
        ensures InOrder(others, workspaceId, y, m)
      {
        CohortsFollowEvents(runs, others, workspaceId, y, m);
        RowMixesTwoRuns(others, workspaceId, y, m);
        FiguresAreOfCohorts(others, workspaceId, y, m);
      }
    } else {
      var others := AllStay(runs, workspaceId, y, m);
      CohortsFollowEvents(runs, others, workspaceId, y, m);
      RowMixesTwoRuns(others, workspaceId, y, m);
      FiguresAreOfCohorts(others, workspaceId, y, m);
      AllOfLastRemain(runs, workspaceId, y, m);
      assert !InOrder(others, workspaceId, y, m);
    }
  }

  // In particular when no customer joins the cohort between those two runs.
  lemma NoNewcomersKeepOrder(runs: seq<CohortRun>, workspaceId: string, y: int, m: nat)
    requires m < 12 && LastCohort(runs, workspaceId, y, m) <= FirstCohort(runs, workspaceId, y, m)
    ensures AlwaysInOrder(runs, workspaceId, y, m)
  {
    SubsetSize(LastCohort(runs, workspaceId, y, m), FirstCohort(runs, workspaceId, y, m));
    StoredRowExactly(runs, workspaceId, y, m);
  }

  // And a newcomer can put them out of order: a row with one customer at the start and two remaining, at a
  // retention of 100 percent.
  lemma NewcomerBreaksOrder(
      a: NewSubscriptionEvent, b: NewSubscriptionEvent, ofA: SubscriptionRow, ofB: SubscriptionRow,
      workspaceId: string, y: int, m: nat)
    requires m < 12 && Acquired(a, workspaceId, y, m) && Acquired(b, workspaceId, y, m)
    requires a.customerId != b.customerId
    requires ofA.customerId == a.customerId && IsActive(ofA, workspaceId)
    requires ofB.customerId == b.customerId && IsActive(ofB, workspaceId)
    ensures var runs := [CohortRun([a], [ofA]), CohortRun([a, b], [ofA, ofB])];
      var row := StoredAfter(runs, workspaceId, y, m);
      && row.Some?
      && row.value.customersAtStart == 1 && row.value.customersRemaining == 2
      && row.value.customerRetention == 10000
  {
    var first, second := CohortRun([a], [ofA]), CohortRun([a, b], [ofA, ofB]);
    var runs := [first, second];
    OneCustomer(a, ofA, workspaceId, y, m);
    TwoCustomers(a, b, ofA, ofB, workspaceId, y, m);
    assert runs[..1] == [first] && [first][..0] == [];
    assert StoredAfter([first], workspaceId, y, m) == FiguresOf(first, workspaceId, y, m);
  }

  lemma OneCustomer(a: NewSubscriptionEvent, ofA: SubscriptionRow, workspaceId: string, y: int, m: nat)
    requires m < 12 && Acquired(a, workspaceId, y, m)
    ensures var figures := Figures([a], [ofA], workspaceId, y, m);
      figures.Some? && figures.value.customersAtStart == 1
  {
    hide InCohort;
    assert CohortCustomers([a], workspaceId, y, m) == {a.customerId} by {
      assert [a][0] == a;
    }
  }

  lemma TwoCustomers(
      a: NewSubscriptionEvent, b: NewSubscriptionEvent, ofA: SubscriptionRow, ofB: SubscriptionRow,
      workspaceId: string, y: int, m: nat)
    requires m < 12 && Acquired(a, workspaceId, y, m) && Acquired(b, workspaceId, y, m)
    requires a.customerId != b.customerId
    requires ofA.customerId == a.customerId && IsActive(ofA, workspaceId)
    requires ofB.customerId == b.customerId && IsActive(ofB, workspaceId)
    ensures var figures := Figures([a, b], [ofA, ofB], workspaceId, y, m);
      figures.Some? && figures.value.customersRemaining == 2 && figures.value.customerRetention == 10000
  {
    hide InCohort;
    var both := {a.customerId, b.customerId};
    assert CohortCustomers([a, b], workspaceId, y, m) == both by {
      assert [a, b][0] == a && [a, b][1] == b;
    }
    var subscriptions := [ofA, ofB];
    assert subscriptions[..1] == [ofA] && [ofA][..0] == [];
    assert ActiveOf([ofA], workspaceId) == [ofA];
    assert ActiveOf(subscriptions, workspaceId) == subscriptions;
    assert Remaining([ofA], both) == [ofA];
    assert Remaining(subscriptions, both) == subscriptions;
    assert CustomersOf(subscriptions) == both by {
      assert subscriptions[0] == ofA && subscriptions[1] == ofB;
    }
    BasisPointsOfWhole(2);
    RoundOfInteger(10000);
  }

  lemma {:induction false} SubsetSize<T>(small: set<T>, large: set<T>)
    requires small <= large
    ensures |small| <= |large|
  {
    if small != {} {
      var x :| x in small;
      SubsetSize(small - {x}, large - {x});
    }
  }

  lemma {:induction false} RemainingOnly(subscriptions: seq<SubscriptionRow>, customers: set<string>)
    ensures forall i | 0 <= i < |Remaining(subscriptions, customers)| ::
      Remaining(subscriptions, customers)[i].customerId in customers
  {
    if subscriptions != [] {
      RemainingOnly(subscriptions[..|subscriptions| - 1], customers);
    }
  }

  // The remaining customers are among those the cohort started with.
  lemma RemainingIsSubset(subscriptions: seq<SubscriptionRow>, customers: set<string>)
    ensures CustomersOf(Remaining(subscriptions, customers)) <= customers
    ensures |CustomersOf(Remaining(subscriptions, customers))| <= |customers|
  {
    RemainingOnly(subscriptions, customers);
    SubsetSize(CustomersOf(Remaining(subscriptions, customers)), customers);
  }

  lemma RetentionIsRate(part: int, whole: int)
    requires 0 <= part <= whole && whole > 0
    ensures 0 <= Retention(part, whole) <= 10000
  {
    BasisPointsMonotone(0, part, whole);
    BasisPointsMonotone(part, whole, whole);
    BasisPointsOfWhole(whole);
    assert BasisPoints(0, whole) == 0.0;
  }

  // ---------- Regrouping stored cohort rows ----------

  datatype StoredCohort = StoredCohort(
    cohortMonth: int,
    monthNumber: int,
    customersAtStart: int,
    customersRemaining: int,
    mrrRemaining: int,
    customerRetention: int,
    revenueRetention: int)

  datatype CohortCell = CohortCell(
    monthNumber: int,
    customersRemaining: int,
    mrrRemaining: int,
    customerRetention: real,
    revenueRetention: real)

  datatype CohortRow = CohortRow(cohortMonth: int, customersAtStart: int, months: seq<CohortCell>)

  function Cell(stored: StoredCohort): CohortCell {
    CohortCell(
      stored.monthNumber, stored.customersRemaining, stored.mrrRemaining,
      stored.customerRetention as real / 100.0, stored.revenueRetention as real / 100.0)
  }

  type CohortMap = OrderedMap<int, CohortRow>

  function AddCell(rows: CohortMap, stored: StoredCohort): (result: CohortMap)
    requires rows.Valid()
    ensures result.Valid()
  {
    var row := rows.Get(stored.cohortMonth).GetOr(CohortRow(stored.cohortMonth, stored.customersAtStart, []));
    rows.Set(stored.cohortMonth, row.(months := row.months + [Cell(stored)]))
  }

  function Regrouped(cohorts: seq<StoredCohort>): (rows: CohortMap)
    ensures rows.Valid()
  {
    if cohorts == [] then Empty()
    else AddCell(Regrouped(cohorts[..|cohorts| - 1]), cohorts[|cohorts| - 1])
  }

  // cohorts is the query result, ordered by cohort month and then by month number.
  method GetCohortAnalysis(cohorts: seq<StoredCohort>, months: int) returns (rows: seq<CohortRow>)
    ensures rows == Regrouped(cohorts).values[..SliceLength(|Regrouped(cohorts).values|, months)]
  {
    var cohortMap: CohortMap := Empty();
    for i := 0 to |cohorts|
      invariant cohortMap == Regrouped(cohorts[..i])
    {
      assert cohorts[..i + 1][..i] == cohorts[..i];
      var key := cohorts[i].cohortMonth;
      var row := cohortMap.Get(key).GetOr(CohortRow(key, cohorts[i].customersAtStart, []));
      cohortMap := cohortMap.Set(key, row.(months := row.months + [Cell(cohorts[i])]));
    }
    assert cohorts[..|cohorts|] == cohorts;
    var values := cohortMap.values;
    rows := values[..SliceLength(|values|, months)];
  }

  // The cells of one cohort month, in the order in which they are stored.
  function CellsOf(cohorts: seq<StoredCohort>, month: int): seq<CohortCell> {
    if cohorts == [] then []
    else
      var n := |cohorts| - 1;
      CellsOf(cohorts[..n], month) + if cohorts[n].cohortMonth == month then [Cell(cohorts[n])] else []
  }

  function AllCells(cohorts: seq<StoredCohort>): seq<CohortCell> {
    seq(|cohorts|, i requires 0 <= i < |cohorts| => Cell(cohorts[i]))
  }

  function Flattened(rows: seq<CohortRow>): seq<CohortCell> {
    if rows == [] then [] else Flattened(rows[..|rows| - 1]) + rows[|rows| - 1].months
  }

  lemma AddCellChangesOneRow(rows: CohortMap, stored: StoredCohort, month: int)
    requires rows.Valid()
    ensures var after, own := AddCell(rows, stored), stored.cohortMonth;
      && (after.Has(month) <==> month == own || rows.Has(month))
      && (month != own ==> after.Get(month) == rows.Get(month))
      && (month == own ==>
            var row := rows.Get(month).GetOr(CohortRow(month, stored.customersAtStart, []));
            after.Get(month) == Some(row.(months := row.months + [Cell(stored)])))
  {
    hide Cell;
    var own := stored.cohortMonth;
    var row := rows.Get(own).GetOr(CohortRow(own, stored.customersAtStart, []));
    GetAfterSet(rows, own, row.(months := row.months + [Cell(stored)]), month);
  }

  // In any order of the input, each row is exactly the stored cells of its month.
  lemma {:induction false} RowsAreFilters(cohorts: seq<StoredCohort>, month: int)
    ensures Regrouped(cohorts).Has(month) <==> CellsOf(cohorts, month) != []
    ensures Regrouped(cohorts).Has(month) ==>
      && Regrouped(cohorts).Get(month).value.cohortMonth == month
      && Regrouped(cohorts).Get(month).value.months == CellsOf(cohorts, month)
  {
    hide Cell;
    if cohorts != [] {
      var n := |cohorts| - 1;
      RowsAreFilters(cohorts[..n], month);
      AddCellChangesOneRow(Regrouped(cohorts[..n]), cohorts[n], month);
    }
  }

  predicate OrderedByMonth(cohorts: seq<StoredCohort>) {
    forall i, j | 0 <= i <= j < |cohorts| :: cohorts[i].cohortMonth <= cohorts[j].cohortMonth
  }

  predicate Ascending(rows: seq<CohortRow>) {
    forall i, j | 0 <= i < j < |rows| :: rows[i].cohortMonth < rows[j].cohortMonth
  }

  // With ordered input the row being filled is always the last one.
  ghost predicate LastRowIsNewest(rows: CohortMap, cohorts: seq<StoredCohort>) {
    && (rows.keys == [] <==> cohorts == [])
    && (forall i, j | 0 <= i < j < |rows.keys| :: rows.keys[i] < rows.keys[j])
    && (cohorts != [] ==> rows.keys[|rows.keys| - 1] == cohorts[|cohorts| - 1].cohortMonth)
  }

  lemma {:induction false} OrderFollowsInput(cohorts: seq<StoredCohort>)
    requires OrderedByMonth(cohorts)
    ensures LastRowIsNewest(Regrouped(cohorts), cohorts)
  {
    if cohorts != [] {
      var n := |cohorts| - 1;
      OrderFollowsInput(cohorts[..n]);
      if n > 0 {
        assert cohorts[n - 1].cohortMonth <= cohorts[n].cohortMonth;
      }
    }
  }

  lemma FlattenLast(rows: seq<CohortRow>, row: CohortRow)
    ensures Flattened(rows + [row]) == Flattened(rows) + row.months
    ensures rows != [] ==> Flattened(rows[|rows| - 1 := row]) == Flattened(rows[..|rows| - 1]) + row.months
  {
    assert (rows + [row])[..|rows|] == rows;
    if rows != [] {
      assert rows[|rows| - 1 := row][..|rows| - 1] == rows[..|rows| - 1];
    }
  }

  // Adding to the last row, or starting a new one, extends the flattened cells at their end.
  lemma AddCellFlattens(rows: CohortMap, stored: StoredCohort)
    requires rows.Valid()
    requires rows.Has(stored.cohortMonth) ==> rows.keys[|rows.keys| - 1] == stored.cohortMonth
    ensures Flattened(AddCell(rows, stored).values) == Flattened(rows.values) + [Cell(stored)]
  {
    hide Cell;
    var key := stored.cohortMonth;
    var row := rows.Get(key).GetOr(CohortRow(key, stored.customersAtStart, []));
    FlattenLast(rows.values, row.(months := row.months + [Cell(stored)]));
    if rows.Has(key) {
      assert IndexOf(rows.keys, key) == |rows.values| - 1;
    }
  }

  lemma {:induction false} CellsInOrder(cohorts: seq<StoredCohort>)
    requires OrderedByMonth(cohorts)
    ensures Flattened(Regrouped(cohorts).values) == AllCells(cohorts)
  {
    hide Cell;
    hide AddCell;
    if cohorts == [] {
      assert AllCells(cohorts) == [];
    } else {
      var n := |cohorts| - 1;
      CellsInOrder(cohorts[..n]);
      OrderFollowsInput(cohorts[..n]);
      if n > 0 {
        assert cohorts[n - 1].cohortMonth <= cohorts[n].cohortMonth;
      }
      AddCellFlattens(Regrouped(cohorts[..n]), cohorts[n]);
      assert AllCells(cohorts) == AllCells(cohorts[..n]) + [Cell(cohorts[n])];
    }
  }

  // For input in the order of the query, the rows laid end to end are the stored cells in their order, with
  // one row for each month, ascending.
  lemma RegroupingLosesNothing(cohorts: seq<StoredCohort>)
    requires OrderedByMonth(cohorts)
    ensures Flattened(Regrouped(cohorts).values) == AllCells(cohorts)
    ensures Ascending(Regrouped(cohorts).values)
  {
    OrderFollowsInput(cohorts);
    RowsCarryTheirMonth(cohorts);
    CellsInOrder(cohorts);
  }

  ghost predicate MonthsMatchKeys(rows: CohortMap)
    requires rows.Valid()
  {
    forall i | 0 <= i < |rows.keys| :: rows.values[i].cohortMonth == rows.keys[i]
  }

  lemma AddCellKeepsMonths(rows: CohortMap, stored: StoredCohort)
    requires rows.Valid() && MonthsMatchKeys(rows)
    ensures MonthsMatchKeys(AddCell(rows, stored))
  {
    hide Cell;
  }

  lemma {:induction false} RowsCarryTheirMonth(cohorts: seq<StoredCohort>)
    ensures MonthsMatchKeys(Regrouped(cohorts))
  {
    if cohorts != [] {
      RowsCarryTheirMonth(cohorts[..|cohorts| - 1]);
      AddCellKeepsMonths(Regrouped(cohorts[..|cohorts| - 1]), cohorts[|cohorts| - 1]);
    }
  }
}
