// The figures of a trend point, counted over the invoice records themselves.
module DunningCounts {
  import opened Wrappers
  import opened Numbers
  import opened Sums
  import opened DunningTrend

  // ---------- Which records count ----------

  // The invoices of a workspace whose dunning started in [from, to).
  function StartedIn(invoices: seq<Invoice>, workspaceId: string, from: int, to: int): set<nat> {
    set i: nat |
      && i < |invoices|
      && invoices[i].workspaceId == workspaceId
      && match invoices[i].dunningStartedAt
         case Some(started) => from <= started && started < to
         case None => false
  }

  // Those of them that are paid by now, whenever that happened.
  function PaidOfStarted(invoices: seq<Invoice>, workspaceId: string, from: int, to: int): set<nat> {
    set i | i in StartedIn(invoices, workspaceId, from, to) && invoices[i].isPaid
  }

  // The invoices in dunning at an instant: started by then, and not ended by then.
  function OpenAt(invoices: seq<Invoice>, workspaceId: string, at: int): set<nat> {
    set i: nat |
      && i < |invoices|
      && invoices[i].workspaceId == workspaceId
      && (match invoices[i].dunningStartedAt
          case Some(started) => started <= at
          case None => false)
      && match invoices[i].dunningEndedAt
         case Some(ended) => ended > at
         case None => true
  }

  lemma CountsAreSizes(invoices: seq<Invoice>, workspaceId: string, from: int, to: int)
    ensures Started(invoices, workspaceId, from, to) == |StartedIn(invoices, workspaceId, from, to)|
    ensures StartedAndPaid(invoices, workspaceId, from, to) == |PaidOfStarted(invoices, workspaceId, from, to)|
    ensures InDunning(invoices, workspaceId, from) == |OpenAt(invoices, workspaceId, from)|
  {
    SumCounts(
      invoices, (invoice: Invoice) => if StartedWithin(invoice, workspaceId, from, to) then 1 else 0,
      StartedIn(invoices, workspaceId, from, to));
    SumCounts(
      invoices,
      (invoice: Invoice) => if StartedWithin(invoice, workspaceId, from, to) && invoice.isPaid then 1 else 0,
      PaidOfStarted(invoices, workspaceId, from, to));
    SumCounts(
      invoices, (invoice: Invoice) => if InDunningAt(invoice, workspaceId, from) then 1 else 0,
      OpenAt(invoices, workspaceId, from));
  }

  // ---------- The recovery rate ----------

  // The rate of any point is the share of paid invoices among those whose dunning started in its period, in
  // percent and up to rounding, and 0 when none did.
  lemma PointRateIsShare(invoices: seq<Invoice>, workspaceId: string, current: int, periodEnd: int)
    ensures var point := PointAt(invoices, workspaceId, current, periodEnd);
      var started := |StartedIn(invoices, workspaceId, current, periodEnd)|;
      var paid := |PaidOfStarted(invoices, workspaceId, current, periodEnd)|;
      && point.date == current
      && point.newDunningStarted == started
      && point.invoicesInDunning == |OpenAt(invoices, workspaceId, current)|
      && 0 <= point.recoveryRate <= 100
      && (started == 0 ==> point.recoveryRate == 0)
      && (started > 0 ==> IsShare(point.recoveryRate, paid, started, 100.0))
  {
    CountsAreSizes(invoices, workspaceId, current, periodEnd);
    PointRateIsPercentage(invoices, workspaceId, current, periodEnd);
    if |StartedIn(invoices, workspaceId, current, periodEnd)| > 0 {
      RoundedShare(
        |PaidOfStarted(invoices, workspaceId, current, periodEnd)|,
        |StartedIn(invoices, workspaceId, current, periodEnd)|, 100.0);
    }
  }

  lemma RateRises(recovered: nat, more: nat, total: nat)
    requires recovered <= more
    ensures RecoveryRate(recovered, total) <= RecoveryRate(more, total)
  {
    if total > 0 {
      var each := 1.0 / total as real;
      assert Percentage(recovered, total) == recovered as real * each * 100.0;
      assert Percentage(more, total) == more as real * each * 100.0;
      TimesMonotone(recovered as real, more as real, each);
      RoundMonotone(Percentage(recovered, total), Percentage(more, total));
    }
  }

  lemma {:induction false} SmallerSet(small: set<nat>, large: set<nat>)
    requires small <= large
    ensures |small| <= |large|
  {
    if small != {} {
      var x :| x in small;
      SmallerSet(small - {x}, large - {x});
    }
  }

  // Paying one more invoice never lowers the rate of any point.
  lemma PayingNeverLowers(invoices: seq<Invoice>, i: nat, workspaceId: string, current: int, periodEnd: int)
    requires i < |invoices|
    ensures PointAt(invoices, workspaceId, current, periodEnd).recoveryRate
      <= PointAt(invoices[i := invoices[i].(isPaid := true)], workspaceId, current, periodEnd).recoveryRate
  {
    hide RecoveryRate;
    var after := invoices[i := invoices[i].(isPaid := true)];
    CountsAreSizes(invoices, workspaceId, current, periodEnd);
    CountsAreSizes(after, workspaceId, current, periodEnd);
    assert StartedIn(after, workspaceId, current, periodEnd) == StartedIn(invoices, workspaceId, current, periodEnd);
    SmallerSet(
      PaidOfStarted(invoices, workspaceId, current, periodEnd), PaidOfStarted(after, workspaceId, current, periodEnd));
    RateRises(
      |PaidOfStarted(invoices, workspaceId, current, periodEnd)|,
      |PaidOfStarted(after, workspaceId, current, periodEnd)|,
      |StartedIn(invoices, workspaceId, current, periodEnd)|);
  }

  // ---------- What one more invoice changes ----------

  // Whether an instant that may be missing lies in [from, to).
  predicate Falls(instant: Option<int>, from: int, to: int) {
    match instant
    case Some(at) => from <= at && at < to
    case None => false
  }

  predicate IsOpen(invoice: Invoice, at: int) {
    && invoice.dunningStartedAt.Some? && invoice.dunningStartedAt.value <= at
    && (invoice.dunningEndedAt.None? || invoice.dunningEndedAt.value > at)
  }

  // What an invoice of the workspace adds to a point: while it is in dunning one invoice and the amount due;
  // one start if its dunning starts in the period; the amount paid if it is paid in the period and was in
  // dunning at all. An invoice of another workspace adds nothing.
  predicate Adds(before: TrendPoint, after: TrendPoint, invoice: Invoice, workspaceId: string, periodEnd: int) {
    var own, open := invoice.workspaceId == workspaceId, IsOpen(invoice, before.date);
    var starts := Falls(invoice.dunningStartedAt, before.date, periodEnd);
    var recovered :=
      invoice.isPaid && invoice.dunningStartedAt.Some? && Falls(invoice.paidAt, before.date, periodEnd);
    && after.date == before.date
    && after.invoicesInDunning == before.invoicesInDunning + (if own && open then 1 else 0)
    && after.amountAtRisk == before.amountAtRisk + (if own && open then invoice.amountDue else 0)
    && after.amountRecovered == before.amountRecovered + (if own && recovered then invoice.amountPaid else 0)
    && after.newDunningStarted == before.newDunningStarted + (if own && starts then 1 else 0)
    && (!own ==> after.recoveryRate == before.recoveryRate)
  }

  lemma InvoiceAddsToPoint(
      invoices: seq<Invoice>, k: nat, invoice: Invoice, workspaceId: string, current: int, periodEnd: int)
    requires k <= |invoices|
    ensures Adds(
      PointAt(invoices, workspaceId, current, periodEnd),
      PointAt(invoices[..k] + [invoice] + invoices[k..], workspaceId, current, periodEnd),
      invoice, workspaceId, periodEnd)
  {
    hide RecoveryRate;
    SumInserts(
      invoices, k, invoice, (i: Invoice) => if StartedWithin(i, workspaceId, current, periodEnd) then 1 else 0);
    SumInserts(
      invoices, k, invoice,
      (i: Invoice) => if StartedWithin(i, workspaceId, current, periodEnd) && i.isPaid then 1 else 0);
    SumInserts(
      invoices, k, invoice,
      (i: Invoice) => if RecoveredWithin(i, workspaceId, current, periodEnd) then i.amountPaid else 0);
    SumInserts(invoices, k, invoice, (i: Invoice) => if InDunningAt(i, workspaceId, current) then 1 else 0);
    SumInserts(invoices, k, invoice, (i: Invoice) => if InDunningAt(i, workspaceId, current) then i.amountDue else 0);
  }

  // One more invoice, wherever it stands in the table, leaves the number of points as it is and adds this to
  // each of them.
  lemma InvoiceAddsToTrend(
      invoices: seq<Invoice>, k: nat, invoice: Invoice, workspaceId: string, start: int, endDate: int, period: Period)
    requires k <= |invoices| && CanEnd(start, endDate, period)
    ensures var points := Trend(invoices, workspaceId, start, endDate, period);
      var after := Trend(invoices[..k] + [invoice] + invoices[k..], workspaceId, start, endDate, period);
      && |after| == |points|
      && forall i | 0 <= i < |points| ::
           Adds(points[i], after[i], invoice, workspaceId, After(start, period, i + 1))
  {
    hide PointAt;
    hide Trend;
    hide Adds;
    hide NextPeriodDate;
    var longer := invoices[..k] + [invoice] + invoices[k..];
    TrendTiles(invoices, workspaceId, start, endDate, period);
    TrendTiles(longer, workspaceId, start, endDate, period);
    SameLength(invoices, longer, workspaceId, start, endDate, period);
    var points := Trend(invoices, workspaceId, start, endDate, period);
    forall i | 0 <= i < |points|
      ensures Adds(
        points[i], Trend(longer, workspaceId, start, endDate, period)[i], invoice, workspaceId,
        After(start, period, i + 1))
    {
      InvoiceAddsToPoint(
        invoices, k, invoice, workspaceId, After(start, period, i), After(start, period, i + 1));
    }
  }

  lemma {:induction false} SameLength(
      invoices: seq<Invoice>, others: seq<Invoice>, workspaceId: string, start: int, endDate: int, period: Period)
    requires CanEnd(start, endDate, period)
    ensures |Trend(invoices, workspaceId, start, endDate, period)|
      == |Trend(others, workspaceId, start, endDate, period)|
    decreases if start > endDate then 0 else endDate - start + 1
  {
    hide NextPeriodDate;
    hide PointAt;
    if start <= endDate {
      StepAdvances(start, period);
      SameLength(invoices, others, workspaceId, NextPeriodDate(start, period), endDate, period);
    }
  }

  lemma NothingAtPoint(workspaceId: string, current: int, periodEnd: int)
    ensures PointAt([], workspaceId, current, periodEnd) == TrendPoint(current, 0, 0, 0, 0, 0)
  {
  }

  // Without invoices all figures are 0, so these steps determine them for any table.
  lemma NoInvoices(workspaceId: string, start: int, endDate: int, period: Period)
    requires CanEnd(start, endDate, period)
    ensures forall point | point in Trend([], workspaceId, start, endDate, period) ::
      point == TrendPoint(point.date, 0, 0, 0, 0, 0)
  {
    TrendTiles([], workspaceId, start, endDate, period);
    hide PointAt;
    hide Trend;
    hide After;
    var points := Trend([], workspaceId, start, endDate, period);
    forall i | 0 <= i < |points|
      ensures points[i] == TrendPoint(points[i].date, 0, 0, 0, 0, 0)
    {
      NothingAtPoint(workspaceId, After(start, period, i), After(start, period, i + 1));
    }
  }
}
