// The dunning trend: a walk over time in daily, weekly or monthly steps that aggregates invoices
// (packages/api/src/analytics/dunning-analytics.service.ts).
module DunningTrend {
  import opened Wrappers
  import opened Numbers
  import opened Sums
  import opened Calendar

  // The period arrives as a string that nothing has checked.
  datatype Period = Daily | Weekly | Monthly | Undeclared(name: string)

  datatype Invoice = Invoice(
    workspaceId: string,
    isPaid: bool,
    amountDue: int,
    amountPaid: int,
    dunningStartedAt: Option<int>,
    dunningEndedAt: Option<int>,
    paidAt: Option<int>)

  datatype TrendPoint = TrendPoint(
    date: int,
    invoicesInDunning: int,
    amountAtRisk: int,
    amountRecovered: int,
    recoveryRate: int,
    newDunningStarted: int)

  function NextPeriodDate(current: int, period: Period): int {
    match period
    case Daily => SetDate(current, Date(Day(current)) + 1)
    case Weekly => SetDate(current, Date(Day(current)) + 7)
    case Monthly => SetMonth(current, Month(Day(current)) + 1)
    case Undeclared(_) => current
  }

  // The length of a step in days: a month step is as long as the month that current lies in.
  function StepLength(current: int, period: Period): nat {
    match period
    case Daily => 1
    case Weekly => 7
    case Monthly => DaysInMonth(Year(Day(current)), Month(Day(current)))
    case Undeclared(_) => 0
  }

  lemma StepIsDays(current: int, period: Period)
    ensures NextPeriodDate(current, period) == DaysLater(current, StepLength(current, period))
    ensures !period.Undeclared? ==> 1 <= StepLength(current, period) <= 31
    ensures period.Monthly? ==> 28 <= StepLength(current, period)
    ensures NextPeriodDate(current, period) > current <==> !period.Undeclared?
  {
    match period
    case Daily => StepDays(current, 1);
    case Weekly => StepDays(current, 7);
    case Monthly => StepMonth(current);
    case Undeclared(_) =>
  }

  // All that the walk needs to know of a step.
  lemma StepAdvances(current: int, period: Period)
    ensures NextPeriodDate(current, period) > current <==> !period.Undeclared?
    ensures period.Undeclared? ==> NextPeriodDate(current, period) == current
  {
    StepIsDays(current, period);
  }

  // ---------- The queries of one step, as measures over the invoices ----------

  predicate StartedWithin(invoice: Invoice, workspaceId: string, from: int, to: int) {
    && invoice.workspaceId == workspaceId
    && invoice.dunningStartedAt.Some?
    && from <= invoice.dunningStartedAt.value < to
  }

  predicate RecoveredWithin(invoice: Invoice, workspaceId: string, from: int, to: int) {
    && invoice.workspaceId == workspaceId
    && invoice.dunningStartedAt.Some?
    && invoice.isPaid
    && invoice.paidAt.Some?
    && from <= invoice.paidAt.value < to
  }

  predicate InDunningAt(invoice: Invoice, workspaceId: string, at: int) {
    && invoice.workspaceId == workspaceId
    && invoice.dunningStartedAt.Some?
    && invoice.dunningStartedAt.value <= at
    && (invoice.dunningEndedAt.None? || at < invoice.dunningEndedAt.value)
  }

  function Started(invoices: seq<Invoice>, workspaceId: string, from: int, to: int): int {
    Sum(invoices, (invoice: Invoice) => if StartedWithin(invoice, workspaceId, from, to) then 1 else 0)
  }

  function StartedAndPaid(invoices: seq<Invoice>, workspaceId: string, from: int, to: int): int {
    Sum(invoices, (invoice: Invoice) =>
      if StartedWithin(invoice, workspaceId, from, to) && invoice.isPaid then 1 else 0)
  }

  function Recovered(invoices: seq<Invoice>, workspaceId: string, from: int, to: int): int {
    Sum(invoices, (invoice: Invoice) =>
      if RecoveredWithin(invoice, workspaceId, from, to) then invoice.amountPaid else 0)
  }

  function InDunning(invoices: seq<Invoice>, workspaceId: string, at: int): int {
    Sum(invoices, (invoice: Invoice) => if InDunningAt(invoice, workspaceId, at) then 1 else 0)
  }

  function AtRisk(invoices: seq<Invoice>, workspaceId: string, at: int): int {
    Sum(invoices, (invoice: Invoice) => if InDunningAt(invoice, workspaceId, at) then invoice.amountDue else 0)
  }

  function Percentage(part: int, whole: int): real
    requires whole > 0
  {
    part as real / whole as real * 100.0
  }

  function RecoveryRate(recovered: int, total: int): int {
    if total > 0 then Round(Percentage(recovered, total)) else 0
  }

  function PointAt(invoices: seq<Invoice>, workspaceId: string, current: int, periodEnd: int): TrendPoint {
    TrendPoint(
      current,
      InDunning(invoices, workspaceId, current),
      AtRisk(invoices, workspaceId, current),
      Recovered(invoices, workspaceId, current, periodEnd),
      RecoveryRate(
        StartedAndPaid(invoices, workspaceId, current, periodEnd), Started(invoices, workspaceId, current, periodEnd)),
      Started(invoices, workspaceId, current, periodEnd))
  }

  // ---------- The walk ----------

  // Where the walk stands after n steps.
  function After(start: int, period: Period, n: nat): int {
    if n == 0 then start else NextPeriodDate(After(start, period, n - 1), period)
  }

  // The loop runs while the current instant has not passed endDate, so it ends when some step passes it.
  ghost predicate Ends(start: int, endDate: int, period: Period) {
    exists n: nat :: After(start, period, n) > endDate
  }

  predicate CanEnd(start: int, endDate: int, period: Period) {
    start > endDate || !period.Undeclared?
  }

  lemma {:induction false} AfterAdvances(start: int, period: Period, n: nat)
    ensures !period.Undeclared? ==> After(start, period, n) >= start + n
    ensures period.Undeclared? ==> After(start, period, n) == start
  {
    hide NextPeriodDate;
    if n > 0 {
      AfterAdvances(start, period, n - 1);
      StepAdvances(After(start, period, n - 1), period);
    }
  }

  // The loop ends for the three declared periods; for any other string it runs for ever, unless it never starts.
  lemma EndsExactly(start: int, endDate: int, period: Period)
    ensures Ends(start, endDate, period) <==> CanEnd(start, endDate, period)
  {
    if start > endDate {
      assert After(start, period, 0) > endDate;
    } else if period.Undeclared? {
      forall n: nat
        ensures After(start, period, n) <= endDate
      {
        AfterAdvances(start, period, n);
      }
    } else {
      AfterAdvances(start, period, endDate - start + 1);
    }
  }

  function Trend(
      invoices: seq<Invoice>, workspaceId: string, current: int, endDate: int, period: Period): seq<TrendPoint>
    requires CanEnd(current, endDate, period)
    decreases if current > endDate then 0 else endDate - current + 1
  {
    if current > endDate then
      []
    else
      StepAdvances(current, period);
      var next := NextPeriodDate(current, period);
      [PointAt(invoices, workspaceId, current, next)] + Trend(invoices, workspaceId, next, endDate, period)
  }

  method GetDunningTrend(invoices: seq<Invoice>, workspaceId: string, startDate: int, endDate: int, period: Period)
    returns (points: seq<TrendPoint>)
    requires CanEnd(startDate, endDate, period)
    ensures points == Trend(invoices, workspaceId, startDate, endDate, period)
  {
    hide NextPeriodDate;
    hide InDunning;
    hide AtRisk;
    hide Recovered;
    hide Started;
    hide StartedAndPaid;
    hide RecoveryRate;
    points := [];
    var current := startDate;
    while current <= endDate
      invariant CanEnd(current, endDate, period)
      invariant Trend(invoices, workspaceId, startDate, endDate, period)
             == points + Trend(invoices, workspaceId, current, endDate, period)
      decreases endDate - current
    {
      StepAdvances(current, period);
      var periodEnd := NextPeriodDate(current, period);
      var totalInPeriod := Started(invoices, workspaceId, current, periodEnd);
      var recoveredInPeriod := StartedAndPaid(invoices, workspaceId, current, periodEnd);
      var point := TrendPoint(
        current,
        InDunning(invoices, workspaceId, current),
        AtRisk(invoices, workspaceId, current),
        Recovered(invoices, workspaceId, current, periodEnd),
        RecoveryRate(recoveredInPeriod, totalInPeriod),
        totalInPeriod);
      points := points + [point];
      current := periodEnd;
    }
  }

  // ---------- The steps tile time ----------

  // The end of the last period, the first instant the walk reaches beyond endDate.
  function TrendEnd(current: int, endDate: int, period: Period): (end: int)
    requires CanEnd(current, endDate, period)
    ensures end > endDate && end >= current
    decreases if current > endDate then 0 else endDate - current + 1
  {
    if current > endDate then
      current
    else
      StepAdvances(current, period);
      TrendEnd(NextPeriodDate(current, period), endDate, period)
  }

  // Each point is the walk's position, and its period ends where the next one begins.
  lemma {:induction false} TrendTiles(
      invoices: seq<Invoice>, workspaceId: string, start: int, endDate: int, period: Period)
    requires CanEnd(start, endDate, period)
    ensures var points := Trend(invoices, workspaceId, start, endDate, period);
      && (forall i | 0 <= i < |points| ::
            && points[i].date == After(start, period, i) <= endDate
            && points[i] == PointAt(
                 invoices, workspaceId, After(start, period, i), After(start, period, i + 1)))
      && After(start, period, |points|) == TrendEnd(start, endDate, period)
    decreases if start > endDate then 0 else endDate - start + 1
  {
    hide NextPeriodDate;
    if start <= endDate {
      StepAdvances(start, period);
      var next := NextPeriodDate(start, period);
      var points := Trend(invoices, workspaceId, start, endDate, period);
      var rest := Trend(invoices, workspaceId, next, endDate, period);
      TrendTiles(invoices, workspaceId, next, endDate, period);
      forall i | 0 <= i < |points|
        ensures points[i].date == After(start, period, i) <= endDate
        ensures points[i] == PointAt(
          invoices, workspaceId, After(start, period, i), After(start, period, i + 1))
      {
        if i > 0 {
          assert points[i] == rest[i - 1];
          AfterShift(start, period, i - 1);
          AfterShift(start, period, i);
        }
      }
      AfterShift(start, period, |rest|);
    }
  }

  lemma {:induction false} AfterShift(start: int, period: Period, n: nat)
    ensures After(start, period, n + 1) == After(NextPeriodDate(start, period), period, n)
  {
    hide NextPeriodDate;
    if n > 0 {
      AfterShift(start, period, n - 1);
    }
  }

  // ---------- What the trend conserves ----------

  function SumOfStarted(points: seq<TrendPoint>): int {
    Sum(points, (point: TrendPoint) => point.newDunningStarted)
  }

  function SumOfRecovered(points: seq<TrendPoint>): int {
    Sum(points, (point: TrendPoint) => point.amountRecovered)
  }

  lemma StartedSplits(invoices: seq<Invoice>, workspaceId: string, from: int, mid: int, to: int)
    requires from <= mid <= to
    ensures Started(invoices, workspaceId, from, to)
      == Started(invoices, workspaceId, from, mid) + Started(invoices, workspaceId, mid, to)
  {
    SumIsLinear(
      invoices,
      (invoice: Invoice) => if StartedWithin(invoice, workspaceId, from, to) then 1 else 0,
      (invoice: Invoice) => if StartedWithin(invoice, workspaceId, from, mid) then 1 else 0,
      (invoice: Invoice) => if StartedWithin(invoice, workspaceId, mid, to) then 1 else 0);
  }

  lemma RecoveredSplits(invoices: seq<Invoice>, workspaceId: string, from: int, mid: int, to: int)
    requires from <= mid <= to
    ensures Recovered(invoices, workspaceId, from, to)
      == Recovered(invoices, workspaceId, from, mid) + Recovered(invoices, workspaceId, mid, to)
  {
    SumIsLinear(
      invoices,
      (invoice: Invoice) => if RecoveredWithin(invoice, workspaceId, from, to) then invoice.amountPaid else 0,
      (invoice: Invoice) => if RecoveredWithin(invoice, workspaceId, from, mid) then invoice.amountPaid else 0,
      (invoice: Invoice) => if RecoveredWithin(invoice, workspaceId, mid, to) then invoice.amountPaid else 0);
  }

  lemma SumOfFirst(point: TrendPoint, rest: seq<TrendPoint>)
    ensures SumOfStarted([point] + rest) == point.newDunningStarted + SumOfStarted(rest)
    ensures SumOfRecovered([point] + rest) == point.amountRecovered + SumOfRecovered(rest)
  {
    assert [point][..0] == [];
    SumAppends([point], rest, (p: TrendPoint) => p.newDunningStarted);
    SumAppends([point], rest, (p: TrendPoint) => p.amountRecovered);
  }

  // Over the whole walk, the points add up to one count and one sum over [start, end of the last period).
  lemma {:induction false} TrendConserves(
      invoices: seq<Invoice>, workspaceId: string, start: int, endDate: int, period: Period)
    requires CanEnd(start, endDate, period)
    ensures var points, end :=
        Trend(invoices, workspaceId, start, endDate, period), TrendEnd(start, endDate, period);
      && SumOfStarted(points) == Started(invoices, workspaceId, start, end)
      && SumOfRecovered(points) == Recovered(invoices, workspaceId, start, end)
    decreases if start > endDate then 0 else endDate - start + 1
  {
    hide NextPeriodDate;
    if start > endDate {
      StartedSplits(invoices, workspaceId, start, start, start);
      RecoveredSplits(invoices, workspaceId, start, start, start);
    } else {
      StepAdvances(start, period);
      var next, end := NextPeriodDate(start, period), TrendEnd(start, endDate, period);
      var rest := Trend(invoices, workspaceId, next, endDate, period);
      TrendConserves(invoices, workspaceId, next, endDate, period);
      SumOfFirst(PointAt(invoices, workspaceId, start, next), rest);
      StartedSplits(invoices, workspaceId, start, next, end);
      RecoveredSplits(invoices, workspaceId, start, next, end);
    }
  }

  lemma {:induction false} NoneStarted(invoices: seq<Invoice>, workspaceId: string, from: int, to: int)
    ensures Started(invoices, workspaceId, from, to) >= 0
    ensures Started(invoices, workspaceId, from, to) == 0
      <==> forall invoice | invoice in invoices :: !StartedWithin(invoice, workspaceId, from, to)
  {
    if invoices != [] {
      NoneStarted(invoices[..|invoices| - 1], workspaceId, from, to);
      assert forall invoice | invoice in invoices ::
        invoice in invoices[..|invoices| - 1] || invoice == invoices[|invoices| - 1];
    }
  }

  // The trend counts what started up to and including endDate, and also what started later in the last
  // period; so it matches the requested range exactly when nothing did.
  lemma TrendCountsRangeExactly(
      invoices: seq<Invoice>, workspaceId: string, start: int, endDate: int, period: Period)
    requires CanEnd(start, endDate, period) && start <= endDate
    ensures var points, end :=
        Trend(invoices, workspaceId, start, endDate, period), TrendEnd(start, endDate, period);
      SumOfStarted(points) == Started(invoices, workspaceId, start, endDate + 1)
      <==> forall invoice | invoice in invoices :: !StartedWithin(invoice, workspaceId, endDate + 1, end)
  {
    var end := TrendEnd(start, endDate, period);
    TrendConserves(invoices, workspaceId, start, endDate, period);
    StartedSplits(invoices, workspaceId, start, endDate + 1, end);
    NoneStarted(invoices, workspaceId, endDate + 1, end);
  }

  // And the recovered amount matches exactly when what was paid later in the last period sums to nothing.
  lemma TrendRecoversRangeExactly(
      invoices: seq<Invoice>, workspaceId: string, start: int, endDate: int, period: Period)
    requires CanEnd(start, endDate, period) && start <= endDate
    ensures var points, end :=
        Trend(invoices, workspaceId, start, endDate, period), TrendEnd(start, endDate, period);
      SumOfRecovered(points) == Recovered(invoices, workspaceId, start, endDate + 1)
      <==> Recovered(invoices, workspaceId, endDate + 1, end) == 0
  {
    TrendConserves(invoices, workspaceId, start, endDate, period);
    RecoveredSplits(invoices, workspaceId, start, endDate + 1, TrendEnd(start, endDate, period));
  }

  // ---------- Single points ----------

  lemma PercentageBounds(part: int, whole: int)
    requires 0 <= part <= whole && whole > 0
    ensures 0.0 <= Percentage(part, whole) <= 100.0
  {
    var share := part as real / whole as real;
    assert share * whole as real == part as real;
    assert 0.0 <= share <= 1.0;
  }

  lemma RateIsPercentage(recovered: int, total: int)
    requires 0 <= recovered <= total
    ensures 0 <= RecoveryRate(recovered, total) <= 100
  {
    if total > 0 {
      PercentageBounds(recovered, total);
      RoundMonotone(0.0, Percentage(recovered, total));
      RoundMonotone(Percentage(recovered, total), 100.0);
      RoundOfInteger(0);
      RoundOfInteger(100);
    }
  }

  // Every recovery rate is a percentage, since what was started and paid is part of what was started.
  lemma PointRateIsPercentage(invoices: seq<Invoice>, workspaceId: string, current: int, periodEnd: int)
    ensures 0 <= PointAt(invoices, workspaceId, current, periodEnd).recoveryRate <= 100
  {
    StartedAndPaidIsPart(invoices, workspaceId, current, periodEnd);
    RateIsPercentage(
      StartedAndPaid(invoices, workspaceId, current, periodEnd), Started(invoices, workspaceId, current, periodEnd));
  }

  lemma StartedAndPaidIsPart(invoices: seq<Invoice>, workspaceId: string, from: int, to: int)
    ensures 0 <= StartedAndPaid(invoices, workspaceId, from, to) <= Started(invoices, workspaceId, from, to)
  {
    SumIsMonotone(
      invoices,
      (invoice: Invoice) => if StartedWithin(invoice, workspaceId, from, to) && invoice.isPaid then 1 else 0,
      (invoice: Invoice) => if StartedWithin(invoice, workspaceId, from, to) then 1 else 0);
    SumIsMonotone(
      invoices,
      (invoice: Invoice) => 0,
      (invoice: Invoice) => if StartedWithin(invoice, workspaceId, from, to) && invoice.isPaid then 1 else 0);
    SumIsLinear(invoices, (invoice: Invoice) => 0, (invoice: Invoice) => 0, (invoice: Invoice) => 0);
  }

  // ---------- The backlog between two points ----------

  predicate EndedWithin(invoice: Invoice, workspaceId: string, from: int, to: int) {
    && invoice.workspaceId == workspaceId
    && invoice.dunningEndedAt.Some?
    && from <= invoice.dunningEndedAt.value < to
  }

  function Ended(invoices: seq<Invoice>, workspaceId: string, from: int, to: int): int {
    Sum(invoices, (invoice: Invoice) => if EndedWithin(invoice, workspaceId, from, to) then 1 else 0)
  }

  // Dunning ends only after it has started.
  predicate EndsAfterStart(invoice: Invoice) {
    invoice.dunningEndedAt.Some? ==>
      invoice.dunningStartedAt.Some? && invoice.dunningStartedAt.value <= invoice.dunningEndedAt.value
  }

  // The snapshots of a trend flow into each other: the backlog at a later point is the earlier one, plus what
  // started, minus what ended, both counted after the first point and up to the second.
  lemma BacklogFlows(invoices: seq<Invoice>, workspaceId: string, from: int, to: int)
    requires from <= to && forall invoice | invoice in invoices :: EndsAfterStart(invoice)
    ensures InDunning(invoices, workspaceId, to) + Ended(invoices, workspaceId, from + 1, to + 1)
      == InDunning(invoices, workspaceId, from) + Started(invoices, workspaceId, from + 1, to + 1)
  {
    var late := (invoice: Invoice) => if InDunningAt(invoice, workspaceId, to) then 1 else 0;
    var ended := (invoice: Invoice) => if EndedWithin(invoice, workspaceId, from + 1, to + 1) then 1 else 0;
    var early := (invoice: Invoice) => if InDunningAt(invoice, workspaceId, from) then 1 else 0;
    var started := (invoice: Invoice) => if StartedWithin(invoice, workspaceId, from + 1, to + 1) then 1 else 0;
    var moved := (invoice: Invoice) => late(invoice) + ended(invoice);
    SumIsLinear(invoices, moved, late, ended);
    SumIsLinear(invoices, moved, early, started);
  }

  function StartedAmount(invoices: seq<Invoice>, workspaceId: string, from: int, to: int): int {
    Sum(invoices, (invoice: Invoice) => if StartedWithin(invoice, workspaceId, from, to) then invoice.amountDue else 0)
  }

  function EndedAmount(invoices: seq<Invoice>, workspaceId: string, from: int, to: int): int {
    Sum(invoices, (invoice: Invoice) => if EndedWithin(invoice, workspaceId, from, to) then invoice.amountDue else 0)
  }

  // And so does the amount at risk.
  lemma AmountAtRiskFlows(invoices: seq<Invoice>, workspaceId: string, from: int, to: int)
    requires from <= to && forall invoice | invoice in invoices :: EndsAfterStart(invoice)
    ensures AtRisk(invoices, workspaceId, to) + EndedAmount(invoices, workspaceId, from + 1, to + 1)
      == AtRisk(invoices, workspaceId, from) + StartedAmount(invoices, workspaceId, from + 1, to + 1)
  {
    var late := (i: Invoice) => if InDunningAt(i, workspaceId, to) then i.amountDue else 0;
    var ended := (i: Invoice) => if EndedWithin(i, workspaceId, from + 1, to + 1) then i.amountDue else 0;
    var early := (i: Invoice) => if InDunningAt(i, workspaceId, from) then i.amountDue else 0;
    var started := (i: Invoice) => if StartedWithin(i, workspaceId, from + 1, to + 1) then i.amountDue else 0;
    var moved := (i: Invoice) => late(i) + ended(i);
    SumIsLinear(invoices, moved, late, ended);
    SumIsLinear(invoices, moved, early, started);
  }
}
