// Monthly recurring revenue, from subscriptions and from revenue events
// (packages/api/src/analytics/revenue-analytics.service.ts).
module Mrr {
  import opened Wrappers
  import opened Numbers
  import opened Sums
  import opened Filtering

  datatype PlanPricing = PlanPricing(amount: Option<real>, interval: Option<string>, intervalCount: Option<int>)

  datatype SubscriptionRow = SubscriptionRow(
    workspaceId: string,
    customerId: string,
    customerEmail: string,
    status: string,
    pricing: Option<PlanPricing>)

  predicate IsActive(subscription: SubscriptionRow, workspaceId: string) {
    && subscription.workspaceId == workspaceId
    && (subscription.status == "active" || subscription.status == "trialing")
  }

  // The rows that the queries of the service select.
  function ActiveOf(subscriptions: seq<SubscriptionRow>, workspaceId: string): seq<SubscriptionRow> {
    if subscriptions == [] then []
    else
      var n := |subscriptions| - 1;
      ActiveOf(subscriptions[..n], workspaceId)
      + if IsActive(subscriptions[n], workspaceId) then [subscriptions[n]] else []
  }

  function IntervalToMonths(interval: string): (months: real)
    ensures months > 0.0
  {
    if interval == "day" then 1.0 / 30.0
    else if interval == "week" then 1.0 / 4.0
    else if interval == "quarter" then 3.0
    else if interval == "year" then 12.0
    else 1.0
  }

  // A missing or empty interval is a month, a missing or zero count is one.
  function IntervalOf(pricing: PlanPricing): string {
    if pricing.interval.GetOr("") != "" then pricing.interval.value else "month"
  }

  function CountOf(pricing: PlanPricing): (count: int)
    ensures count != 0
  {
    if pricing.intervalCount.GetOr(0) != 0 then pricing.intervalCount.value else 1
  }

  // The monthly share of an amount before rounding.
  function ExactMonthly(amount: real, interval: string, intervalCount: int): real
    requires intervalCount != 0
  {
    var months := IntervalToMonths(interval);
    assert months * intervalCount as real != 0.0;
    amount / (months * intervalCount as real)
  }

  function NormalizeToMonthly(amount: real, interval: string, intervalCount: int): int
    requires intervalCount != 0
  {
    Round(ExactMonthly(amount, interval, intervalCount))
  }

  predicate HasAmount(subscription: SubscriptionRow) {
    subscription.pricing.Some? && subscription.pricing.value.amount.GetOr(0.0) != 0.0
  }

  function MonthlyAmount(subscription: SubscriptionRow): int {
    if HasAmount(subscription) then
      var pricing := subscription.pricing.value;
      NormalizeToMonthly(pricing.amount.value, IntervalOf(pricing), CountOf(pricing))
    else
      0
  }

  function TotalMrr(subscriptions: seq<SubscriptionRow>): int {
    Sum(subscriptions, MonthlyAmount)
  }

  method CalculateCurrentMrr(subscriptions: seq<SubscriptionRow>, workspaceId: string) returns (totalMrr: int)
    ensures totalMrr == TotalMrr(ActiveOf(subscriptions, workspaceId))
  {
    var active := ActiveOf(subscriptions, workspaceId);
    totalMrr := 0;
    for i := 0 to |active|
      invariant totalMrr == TotalMrr(active[..i])
    {
      assert active[..i + 1][..i] == active[..i];
      if HasAmount(active[i]) {
        var pricing := active[i].pricing.value;
        var monthlyAmount := NormalizeToMonthly(pricing.amount.value, IntervalOf(pricing), CountOf(pricing));
        totalMrr := totalMrr + monthlyAmount;
      }
    }
    assert active[..|active|] == active;
  }

  // The rows that count: those of the workspace that are active or trialing, in the order of the table.
  function Counts(workspaceId: string): SubscriptionRow -> bool {
    (row: SubscriptionRow) => row.workspaceId == workspaceId && row.status in {"active", "trialing"}
  }

  lemma ActiveStep(subscriptions: seq<SubscriptionRow>, workspaceId: string)
    requires subscriptions != []
    ensures var n := |subscriptions| - 1;
      var before := ActiveOf(subscriptions[..n], workspaceId);
      ActiveOf(subscriptions, workspaceId)
      == if Counts(workspaceId)(subscriptions[n]) then before + [subscriptions[n]] else before
  {
  }

  lemma {:induction false} ActiveAreCounted(subscriptions: seq<SubscriptionRow>, workspaceId: string)
    ensures IsFilter(ActiveOf(subscriptions, workspaceId), subscriptions, Counts(workspaceId))
  {
    hide IsFilter;
    if subscriptions == [] {
      NothingToFilter(Counts(workspaceId));
    } else {
      var n := |subscriptions| - 1;
      ActiveAreCounted(subscriptions[..n], workspaceId);
      FilterAppends(
        ActiveOf(subscriptions[..n], workspaceId), subscriptions[..n], subscriptions[n], Counts(workspaceId));
      assert subscriptions[..n] + [subscriptions[n]] == subscriptions;
      ActiveStep(subscriptions, workspaceId);
    }
  }

  // ---------- MRR against what is billed in a year ----------

  // How often an interval is billed in a year of 12 months of 30 days or 4 weeks. Anything that is not one of
  // the five intervals is taken for a month, and so is a missing one.
  function TimesAYear(interval: Option<string>): (times: real)
    ensures times > 0.0
  {
    if interval == Some("day") then 360.0
    else if interval == Some("week") then 48.0
    else if interval == Some("quarter") then 4.0
    else if interval == Some("year") then 1.0
    else 12.0
  }

  // What a row bills in a year: its amount once every intervalCount intervals, a missing or zero count being 1.
  function BilledByRow(row: SubscriptionRow): real {
    match row.pricing
    case None => 0.0
    case Some(pricing) =>
      match pricing.amount
      case None => 0.0
      case Some(amount) =>
        if pricing.intervalCount == None || pricing.intervalCount == Some(0) then
          amount * TimesAYear(pricing.interval)
        else
          amount * TimesAYear(pricing.interval) / pricing.intervalCount.value as real
  }

  function BilledInYear(subscriptions: seq<SubscriptionRow>, workspaceId: string): real {
    if subscriptions == [] then 0.0
    else
      var n := |subscriptions| - 1;
      BilledInYear(subscriptions[..n], workspaceId)
      + if subscriptions[n].workspaceId == workspaceId && subscriptions[n].status in {"active", "trialing"} then
          BilledByRow(subscriptions[n])
        else
          0.0
  }

  lemma YearOfMonths(interval: string)
    ensures IntervalToMonths(interval) * TimesAYear(Some(interval)) == 12.0
  {
  }

  lemma Quotients(amount: real, months: real, times: real, count: real)
    requires months > 0.0 && count != 0.0 && months * times == 12.0
    ensures months * count != 0.0 && 12.0 * (amount / (months * count)) == amount * times / count
  {
    var q := amount / (months * count);
    assert q * (months * count) == amount;
    assert q * (months * count) * times == q * count * (months * times);
    assert amount * times == 12.0 * q * count;
  }

  lemma ExactYear(row: SubscriptionRow)
    requires HasAmount(row)
    ensures var pricing := row.pricing.value;
      12.0 * ExactMonthly(pricing.amount.value, IntervalOf(pricing), CountOf(pricing)) == BilledByRow(row)
  {
    var pricing := row.pricing.value;
    var interval, count := IntervalOf(pricing), CountOf(pricing);
    YearOfMonths(interval);
    assert TimesAYear(pricing.interval) == TimesAYear(Some(interval));
    Quotients(pricing.amount.value, IntervalToMonths(interval), TimesAYear(Some(interval)), count as real);
  }

  lemma RowRounding(row: SubscriptionRow)
    ensures Abs(12.0 * MonthlyAmount(row) as real - BilledByRow(row)) <= 6.0
  {
    if HasAmount(row) {
      hide BilledByRow;
      ExactYear(row);
    }
  }

  lemma TotalOfOneMore(subscriptions: seq<SubscriptionRow>, row: SubscriptionRow)
    ensures TotalMrr(subscriptions + [row]) == TotalMrr(subscriptions) + MonthlyAmount(row)
  {
    hide MonthlyAmount;
    assert (subscriptions + [row])[..|subscriptions|] == subscriptions;
  }

  // For any mix of intervals and counts: ARR, which is twelve times MRR, is within 6 for each row counted of
  // what these rows bill in a year.
  lemma {:induction false} ArrRounding(subscriptions: seq<SubscriptionRow>, workspaceId: string)
    ensures var active := ActiveOf(subscriptions, workspaceId);
      Abs(12.0 * TotalMrr(active) as real - BilledInYear(subscriptions, workspaceId)) <= 6.0 * |active| as real
  {
    hide BilledByRow;
    hide TotalMrr;
    if subscriptions == [] {
      assert TotalMrr([]) == 0 by {
        TotalOfNone();
      }
    } else {
      var n := |subscriptions| - 1;
      ArrRounding(subscriptions[..n], workspaceId);
      ActiveStep(subscriptions, workspaceId);
      RowRounding(subscriptions[n]);
      TotalOfOneMore(ActiveOf(subscriptions[..n], workspaceId), subscriptions[n]);
    }
  }

  lemma TotalOfNone()
    ensures TotalMrr([]) == 0
  {
  }

  // ---------- Movement of MRR ----------

  datatype RevenueEventType =
    | NewSubscription | Upgrade | Downgrade | Cancellation | Reactivation | TrialConverted | OtherEvent

  datatype RevenueEvent = RevenueEvent(kind: RevenueEventType, mrrDelta: int)

  datatype MrrBreakdown = MrrBreakdown(
    total: int, newMrr: int, expansion: int, contraction: int, churned: int, reactivation: int, netNew: int)

  function Magnitude(delta: int): int {
    if delta < 0 then -delta else delta
  }

  // The component of the breakdown that an event counts towards.
  datatype Component = NewMrr | Expansion | Contraction | Churn | Reactivated | NoComponent

  function ComponentOf(kind: RevenueEventType): Component {
    match kind
    case NewSubscription => NewMrr
    case TrialConverted => NewMrr
    case Upgrade => Expansion
    case Downgrade => Contraction
    case Cancellation => Churn
    case Reactivation => Reactivated
    case OtherEvent => NoComponent
  }

  function Part(events: seq<RevenueEvent>, component: Component): int {
    Sum(events, (event: RevenueEvent) =>
      if ComponentOf(event.kind) == component then Magnitude(event.mrrDelta) else 0)
  }

  function Breakdown(events: seq<RevenueEvent>): MrrBreakdown {
    var gained := Part(events, NewMrr) + Part(events, Expansion) + Part(events, Reactivated);
    MrrBreakdown(
      gained, Part(events, NewMrr), Part(events, Expansion), Part(events, Contraction), Part(events, Churn),
      Part(events, Reactivated), gained - Part(events, Contraction) - Part(events, Churn))
  }

  method CalculateMrrBreakdown(events: seq<RevenueEvent>) returns (breakdown: MrrBreakdown)
    ensures breakdown == Breakdown(events)
  {
    var newMrr, expansion, contraction, churned, reactivation := 0, 0, 0, 0, 0;
    for i := 0 to |events|
      invariant newMrr == Part(events[..i], NewMrr)
      invariant expansion == Part(events[..i], Expansion)
      invariant contraction == Part(events[..i], Contraction)
      invariant churned == Part(events[..i], Churn)
      invariant reactivation == Part(events[..i], Reactivated)
    {
      assert events[..i + 1][..i] == events[..i];
      var size := Magnitude(events[i].mrrDelta);
      match events[i].kind {
        case NewSubscription => newMrr := newMrr + size;
        case TrialConverted => newMrr := newMrr + size;
        case Upgrade => expansion := expansion + size;
        case Downgrade => contraction := contraction + size;
        case Cancellation => churned := churned + size;
        case Reactivation => reactivation := reactivation + size;
        case OtherEvent =>
      }
    }
    assert events[..|events|] == events;
    var netNew := newMrr + expansion + reactivation - contraction - churned;
    var total := newMrr + expansion + reactivation;
    breakdown := MrrBreakdown(total, newMrr, expansion, contraction, churned, reactivation, netNew);
  }

  predicate Gains(kind: RevenueEventType) {
    kind.NewSubscription? || kind.TrialConverted? || kind.Upgrade? || kind.Reactivation?
  }

  predicate Loses(kind: RevenueEventType) {
    kind.Downgrade? || kind.Cancellation?
  }

  // The change an event makes to MRR; events of other kinds make none.
  function Movement(event: RevenueEvent): int {
    if Gains(event.kind) || Loses(event.kind) then event.mrrDelta else 0
  }

  // How far a delta lies on the wrong side of zero for its kind of event.
  function Misfit(event: RevenueEvent): int {
    if (Gains(event.kind) && event.mrrDelta < 0) || (Loses(event.kind) && event.mrrDelta > 0) then
      -event.mrrDelta
    else
      0
  }

  predicate HasItsSign(event: RevenueEvent) {
    (Gains(event.kind) ==> event.mrrDelta >= 0) && (Loses(event.kind) ==> event.mrrDelta <= 0)
  }

  lemma {:induction false} NetNewIsSignedSum(events: seq<RevenueEvent>)
    ensures Breakdown(events).netNew == Sum(events, Movement) + 2 * Sum(events, Misfit)
  {
    if events != [] {
      NetNewIsSignedSum(events[..|events| - 1]);
    }
  }

  lemma {:induction false} NoMisfit(events: seq<RevenueEvent>)
    requires forall i | 0 <= i < |events| :: HasItsSign(events[i])
    ensures Sum(events, Misfit) == 0
  {
    if events != [] {
      NoMisfit(events[..|events| - 1]);
    }
  }

  // With deltas signed like their events, net new MRR is their plain sum, in whatever order they come.
  lemma NetNewIsPlainSum(events: seq<RevenueEvent>, inOtherOrder: seq<RevenueEvent>)
    requires forall i | 0 <= i < |events| :: HasItsSign(events[i])
    requires multiset(events) == multiset(inOtherOrder)
    ensures Breakdown(events).netNew == Sum(events, Movement)
    ensures Breakdown(inOtherOrder) == Breakdown(events)
  {
    NetNewIsSignedSum(events);
    NoMisfit(events);
    PartPermutes(events, inOtherOrder, NewMrr);
    PartPermutes(events, inOtherOrder, Expansion);
    PartPermutes(events, inOtherOrder, Contraction);
    PartPermutes(events, inOtherOrder, Churn);
    PartPermutes(events, inOtherOrder, Reactivated);
  }

  lemma PartPermutes(events: seq<RevenueEvent>, others: seq<RevenueEvent>, component: Component)
    requires multiset(events) == multiset(others)
    ensures Part(events, component) == Part(others, component)
  {
    SumPermutes(events, others, (event: RevenueEvent) =>
      if ComponentOf(event.kind) == component then Magnitude(event.mrrDelta) else 0);
  }

  lemma {:induction false} PartNonNegative(events: seq<RevenueEvent>, component: Component)
    ensures Part(events, component) >= 0
  {
    if events != [] {
      PartNonNegative(events[..|events| - 1], component);
    }
  }

  // What an event adds to the breakdown, by its own type.
  function Counting(breakdown: MrrBreakdown, event: RevenueEvent): MrrBreakdown {
    var size := if event.mrrDelta < 0 then -event.mrrDelta else event.mrrDelta;
    var gained :=
      breakdown.(total := breakdown.total + size, netNew := breakdown.netNew + size);
    var lost := breakdown.(netNew := breakdown.netNew - size);
    match event.kind
    case NewSubscription => gained.(newMrr := breakdown.newMrr + size)
    case TrialConverted => gained.(newMrr := breakdown.newMrr + size)
    case Upgrade => gained.(expansion := breakdown.expansion + size)
    case Reactivation => gained.(reactivation := breakdown.reactivation + size)
    case Downgrade => lost.(contraction := breakdown.contraction + size)
    case Cancellation => lost.(churned := breakdown.churned + size)
    case OtherEvent => breakdown
  }

  // Starting from zeros, one more event, wherever it stands, adds just this.
  lemma EventCounts(events: seq<RevenueEvent>, i: nat, event: RevenueEvent)
    requires i <= |events|
    ensures Breakdown(events[..i] + [event] + events[i..]) == Counting(Breakdown(events), event)
    ensures Breakdown([]) == MrrBreakdown(0, 0, 0, 0, 0, 0, 0)
  {
    PartInserts(events, i, event, NewMrr);
    PartInserts(events, i, event, Expansion);
    PartInserts(events, i, event, Contraction);
    PartInserts(events, i, event, Churn);
    PartInserts(events, i, event, Reactivated);
  }

  lemma PartInserts(events: seq<RevenueEvent>, i: nat, event: RevenueEvent, component: Component)
    requires i <= |events|
    ensures Part(events[..i] + [event] + events[i..], component)
      == Part(events, component) + if ComponentOf(event.kind) == component then Magnitude(event.mrrDelta) else 0
  {
    SumInserts(events, i, event, (e: RevenueEvent) =>
      if ComponentOf(e.kind) == component then Magnitude(e.mrrDelta) else 0);
  }

  // ---------- Retention, in hundredths of a percent ----------

  function BasisPoints(part: int, whole: int): real
    requires whole > 0
  {
    part as real / whole as real * 10000.0
  }

  function GrossRetention(breakdown: MrrBreakdown, previousMrr: int): int {
    if previousMrr > 0 then
      Round(BasisPoints(previousMrr - breakdown.churned - breakdown.contraction, previousMrr))
    else
      10000
  }

  function NetRetention(breakdown: MrrBreakdown, previousMrr: int): int {
    if previousMrr > 0 then
      Round(BasisPoints(
        previousMrr - breakdown.churned - breakdown.contraction + breakdown.expansion, previousMrr))
    else
      10000
  }

  function ChurnRate(breakdown: MrrBreakdown, previousMrr: int): int {
    if previousMrr > 0 then Round(BasisPoints(breakdown.churned, previousMrr)) else 0
  }

  lemma BasisPointsMonotone(part: int, other: int, whole: int)
    requires part <= other && whole > 0
    ensures BasisPoints(part, whole) <= BasisPoints(other, whole)
  {
    var share := 1.0 / whole as real;
    assert BasisPoints(part, whole) == part as real * share * 10000.0;
    assert BasisPoints(other, whole) == other as real * share * 10000.0;
    assert part as real * share <= other as real * share;
  }

  lemma BasisPointsAdd(part: int, other: int, whole: int)
    requires whole > 0
    ensures BasisPoints(part + other, whole) == BasisPoints(part, whole) + BasisPoints(other, whole)
  {
    assert (part + other) as real / whole as real
      == part as real / whole as real + other as real / whole as real;
  }

  lemma BasisPointsOfWhole(whole: int)
    requires whole > 0
    ensures BasisPoints(whole, whole) == 10000.0
  {
    assert whole as real / whole as real == 1.0;
  }

  lemma RateIsShare(part: int, whole: int)
    requires whole > 0
    ensures IsShare(Round(BasisPoints(part, whole)), part, whole, 10000.0)
  {
    RoundedShare(part, whole, 10000.0);
  }

  // What the three rates measure: what is left after churn and contraction, the same with expansion, and what
  // has churned.
  lemma RatesAreShares(breakdown: MrrBreakdown, previousMrr: int)
    ensures previousMrr > 0 ==>
      var kept := previousMrr - breakdown.churned - breakdown.contraction;
      && IsShare(GrossRetention(breakdown, previousMrr), kept, previousMrr, 10000.0)
      && IsShare(NetRetention(breakdown, previousMrr), kept + breakdown.expansion, previousMrr, 10000.0)
      && IsShare(ChurnRate(breakdown, previousMrr), breakdown.churned, previousMrr, 10000.0)
    ensures previousMrr <= 0 ==>
      && GrossRetention(breakdown, previousMrr) == NetRetention(breakdown, previousMrr) == 10000
      && ChurnRate(breakdown, previousMrr) == 0
  {
    hide IsShare;
    hide BasisPoints;
    hide Round;
    if previousMrr > 0 {
      var kept := previousMrr - breakdown.churned - breakdown.contraction;
      RateIsShare(kept, previousMrr);
      RateIsShare(kept + breakdown.expansion, previousMrr);
      RateIsShare(breakdown.churned, previousMrr);
    }
  }

  // The rates of any month: losses keep gross retention at or below net retention and 100 percent, and gross
  // retention and churn exceed 100 percent together by no more than one rounding step.
  lemma RetentionBounds(events: seq<RevenueEvent>, previousMrr: int)
    ensures var breakdown := Breakdown(events);
      var gross, net, churn :=
        GrossRetention(breakdown, previousMrr), NetRetention(breakdown, previousMrr), ChurnRate(breakdown, previousMrr);
      gross <= net && gross <= 10000 && 0 <= churn && gross + churn <= 10001
  {
    if previousMrr > 0 {
      PartNonNegative(events, Expansion);
      PartNonNegative(events, Contraction);
      PartNonNegative(events, Churn);
      LossBounds(previousMrr, Part(events, Churn), Part(events, Contraction), Part(events, Expansion));
    }
  }

  lemma LossBounds(previousMrr: int, churned: nat, lost: nat, expansion: nat)
    requires previousMrr > 0
    ensures var kept := previousMrr - churned - lost;
      && Round(BasisPoints(kept, previousMrr)) <= Round(BasisPoints(kept + expansion, previousMrr))
      && Round(BasisPoints(kept, previousMrr)) <= 10000
      && 0 <= Round(BasisPoints(churned, previousMrr))
      && Round(BasisPoints(kept, previousMrr)) + Round(BasisPoints(churned, previousMrr)) <= 10001
  {
    var kept := previousMrr - churned - lost;
    BasisPointsMonotone(kept, kept + expansion, previousMrr);
    RoundMonotone(BasisPoints(kept, previousMrr), BasisPoints(kept + expansion, previousMrr));
    BasisPointsMonotone(kept + churned, previousMrr, previousMrr);
    BasisPointsMonotone(kept, previousMrr, previousMrr);
    BasisPointsMonotone(0, churned, previousMrr);
    BasisPointsOfWhole(previousMrr);
    BasisPointsAdd(kept, churned, previousMrr);
    assert BasisPoints(0, previousMrr) == 0.0;
  }
}
