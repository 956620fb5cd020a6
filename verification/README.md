# Verified model of the Zentla billing arithmetic

A Dafny model of the money arithmetic of the billing API, with the aggregations, the provider cache, the audit
listing and the log masking around it. Loops of the source are methods proved against functions, and the laws are
lemmas about those functions; the service with fields that change is a class.

| files | what they model |
|---|---|
| `UsagePricing`, `PriceLaws`, `FlatAmounts`, `TieredPricing`, `UnitPricing`, `RoundingBounds`, `VolumePricing`, `PriceMonotonicity` | prices of a quantity under the four models, and their laws |
| `Subscriptions`, `SubscriptionUsage`, `SubscriptionLaws`, `HybridPricing`, `IncludedQuantities`, `InvoiceLaws`, `TotalMonotonicity` | the two services that price a subscription, invoice lines, estimates and totals |
| `ZuoraTiers` | the tier ranges exported to Zuora |
| `Calendar`, `DunningTrend`, `DunningCounts` | JavaScript date arithmetic and the walk over time |
| `Mrr`, `TopCustomers`, `Cohorts`, `CohortRecords` | revenue analytics |
| `ProviderCache` | the billing providers of each workspace |
| `AuditPagination`, `AuditFilters`, `AuditTies`, `Anonymizer`, `MaskingRules` | the audit log: listing and masking |
| `Wrappers`, `Numbers`, `Sums`, `Filtering`, `OrderedMaps`, `Strings` | optional values, rounding, sums, filters, JavaScript maps and strings |

Conventions:

- Numbers are exact reals, or integers where the source keeps integers. `Math.round` is the integer in the half-open
  interval given by section 15.8.2.15 of ECMA-262 edition 5.1, so halves go up.
- Tables are sequences of records, and awaited queries are filters over them. The usage service is an arbitrary
  function from metric to quantity. Thrown errors are `Err` results.
- Request validation asks of a tier only that its bound is a number and that rate and fee are not negative
  (packages/api/src/offers/dto/index.ts:28-56), so bounds may come in any order. The bound is not optional there, so a
  null bound is refused, although its description asks for one in the last tier: unbounded tiers reach the code only
  in data stored some other way, and quantities beyond every bound are ordinary. The laws are about all non-empty tier
  lists and all positive quantities unless they say otherwise. A list is called well formed when its bounds are positive and strictly increasing and
  only the last tier may be unbounded; only then is there one tier for each unit, so the laws that price unit by unit
  or tier by tier are about these lists.
- Instants are milliseconds in UTC. JavaScript's `Infinity` as previous bound is `None`.
- The identity of a provider adapter is a serial number, given out when the adapter is built.

Where the code does less than it seems to promise, the model keeps the code and the law states exactly when it holds:

- Beyond every bound, tiered pricing charges nothing further (`AllUnitsPriced`), but volume pricing charges every unit:
  there it can be the dearer model although rates fall (`CheaperExactly`, `VolumeDearerBeyondBounds`), and the two
  differ even at one common rate (`CommonIntegerRate`).
- Tiered pricing can charge less for more when bounds are out of order (`TieredMonotoneExactly`, `UnorderedTiersDrop`).
- Volume pricing, and estimates based on it, can charge less for more (`VolumeMonotoneExactly`); so can a whole
  subscription, exactly when one of the pricings it charges by does (`SubscriptionMonotoneExactly`).
- A metered flat price is charged once as base price and again for each metric by one service, but not as a base
  price by the other (`ServicesAgreeExactly`).
- Estimates include a flat amount or a first-tier fee for usage that is wholly included, which is then not charged
  (`EstimateMatchesCharge`).
- The Zuora export drops flat amounts (`ExportAgreesExactly`).
- The dunning trend never ends for an undeclared period string, which request validation lets through
  (`EndsExactly`; packages/api/src/analytics/analytics.controller.ts:205-212), and its last period can reach beyond the
  end date (`TrendCountsRangeExactly`).
- Customers acquired after midnight on the last day of a month are in no cohort (`CohortMissesLastDay`).
- A stored cohort row keeps the start figures of its first run, so customers found later can make more remain than
  there were (`StoredRowExactly`, `NewcomerBreaksOrder`).
- Audit rows are sorted by creation time but resumed by id; ids are random (packages/database/prisma/schema.prisma:667),
  so rows can be lost or repeated; rows of equal creation time can moreover be ordered anew for every page
  (`AlwaysDeliversExactly`, `DeliversOnceExactly`, `RowLost`).
- Masking is not idempotent for names with empty words, for addresses with empty parts, or for values under name keys
  that are not strings (`IdempotentExactly`).

## Model

| member | source | states |
|---|---|---|
| UsagePricing.CalculateTieredPrice | packages/api/src/billing/usage-pricing.service.ts:132-184 | the loop over the tiers reports, for any tier list and quantity, the lines and the total that the laws below are about, and falls back to the per-unit price without tiers |
| UsagePricing.CalculateVolumePrice | packages/api/src/billing/usage-pricing.service.ts:190-230 | the search with its early exit prices the whole quantity at one tier, the one that `VolumeTierIsLastEntered` identifies, or at the last tier beyond every bound |
| UsagePricing.CalculatePrice | packages/api/src/billing/usage-pricing.service.ts:66-87 | the four models are dispatched, and any other model name is an error |
| PriceLaws.PriceRepeatsRequest | packages/api/src/billing/usage-pricing.service.ts:66-230 | every price repeats metric, quantity and currency and names its model, per-unit for a tier model without tiers; it is an error if and only if the model is unknown |
| PriceLaws.PriceIsExplained | packages/api/src/billing/usage-pricing.service.ts:92-230 | the lines add up to the total, and the unit price explains it: exactly under tiered, up to the rounding under per-unit, up to flat amount and rounding under volume pricing; a flat price is its amount |
| PriceLaws.OneTierIsPerUnit | packages/api/src/billing/usage-pricing.service.ts:110-230 | with one unbounded tier the tiered, volume and per-unit totals are the same for every quantity |
| FlatAmounts.FlatAmountsAdded | packages/api/src/billing/usage-pricing.service.ts:154-210 | for any tier list and quantity, taking the `flatAmount` fields away lowers a tiered price by those of exactly the tiers entered, a volume price by that of the tier picked, and no other price |
| TieredPricing.BreakdownIsSlices | packages/api/src/billing/usage-pricing.service.ts:147-170 | for any tier list and positive quantity the running remainder amounts to this: the lines are the tiers up to the first that can hold the quantity, or all of them, each from the previous bound to its own or to the quantity |
| TieredPricing.BreakdownTiles | packages/api/src/billing/usage-pricing.service.ts:147-170 | for any tier list the lines start at 0 and each ends where the next begins, all but the last hold the width of their tier, and together they hold what the last tier reached allows of the quantity |
| TieredPricing.LinesArePositive | packages/api/src/billing/usage-pricing.service.ts:147-170 | in a well-formed list no line is empty or negative |
| TieredPricing.AllUnitsPriced | packages/api/src/billing/usage-pricing.service.ts:147-170 | for any tier list the lines hold the whole quantity if and only if some tier is unbounded or has a bound of at least the quantity; units beyond every bound are free |
| TieredPricing.TieredTotalIsCharges | packages/api/src/billing/usage-pricing.service.ts:143-170 | for well-formed lists the accumulated total is the sum of charges computed tier by tier on their own |
| PriceMonotonicity.TieredMonotoneExactly | packages/api/src/billing/usage-pricing.service.ts:147-170 | for any tier list without negative rates or fees, more usage never costs less, per-tier rounding included, if and only if at 0 and at every positive bound the same quantity costs no less when priced through the next tier that holds more, with all lines passed on the way |
| PriceMonotonicity.DropIsReached | packages/api/src/billing/usage-pricing.service.ts:147-170 | where that check fails there is a larger quantity that costs less |
| PriceMonotonicity.UnorderedTiersDrop | packages/api/src/billing/usage-pricing.service.ts:147-170 | an accepted list on which it fails: with bounds 100, 50 and 1000, 100 units cost 1000 and 101 units cost 855 |
| PriceMonotonicity.TieredMonotone | packages/api/src/billing/usage-pricing.service.ts:147-170 | well-formed lists always pass the check |
| UnitPricing.TieredIsUnitByUnit | packages/api/src/billing/usage-pricing.service.ts:127-170 | with whole-number bounds and rates the total is the price of every unit at the rate of the tier that holds it, plus the flat amount of every tier entered |
| RoundingBounds.TieredRounding | packages/api/src/billing/usage-pricing.service.ts:154-167 | for any tier list the total is within one half per tier entered of the unrounded price |
| RoundingBounds.TieredNearPerUnit | packages/api/src/billing/usage-pricing.service.ts:110-170 | with one common rate and no fees, the total is within (tiers entered + 1) / 2 of the per-unit price of the units that the tiers can hold |
| VolumePricing.VolumeTierIsLastEntered | packages/api/src/billing/usage-pricing.service.ts:147-206 | for any tier list and positive quantity the tier selected is the last one the tiered loop enters |
| VolumePricing.TieredMinusVolume | packages/api/src/billing/usage-pricing.service.ts:147-210 | for any list with whole-number bounds and rates and any positive quantity, tiered pricing falls short of volume pricing by the price of the units beyond every bound, and exceeds it by the fees of the tiers passed and their bounds times the fall of the rate at each |
| VolumePricing.CheaperExactly | packages/api/src/billing/usage-pricing.service.ts:147-210 | hence which of the two models is cheaper: volume pricing if and only if the units beyond every bound are worth no more than those fees and falls, tiered pricing if and only if they are worth no less; for bounds of any order and sign |
| VolumePricing.VolumeAgainstTiered | packages/api/src/billing/usage-pricing.service.ts:147-210 | in particular, with no negative rate, fee or bound, volume pricing is not dearer when rates never rise and some tier can hold the quantity, and not cheaper at any quantity when rates never fall and there are no fees |
| VolumePricing.VolumeDearerBeyondBounds | packages/api/src/billing/usage-pricing.service.ts:147-210 | a list on which falling rates do not help: with 10 up to 100 and 5 up to 1000, 2000 units cost 5500 tiered and 10000 by volume |
| VolumePricing.CommonIntegerRate | packages/api/src/billing/usage-pricing.service.ts:110-210 | one whole-number rate and no fees: volume pricing is per-unit pricing, tiered pricing is per-unit pricing of the units that the tiers can hold, and the two agree if and only if the rest is worth nothing; fractional quantities included |
| PriceMonotonicity.VolumeMonotoneExactly | packages/api/src/billing/usage-pricing.service.ts:199-210 | for any tier list without negative rates or fees, volume pricing never charges less for more if and only if at no bound the next tier that holds more charges that same quantity less |
| PriceMonotonicity.RisingTiersAreMonotone | packages/api/src/billing/usage-pricing.service.ts:199-210 | in particular it is monotone when neither rates nor fees fall from tier to tier, in whatever order the bounds are |
| PriceMonotonicity.CliffIsReached | packages/api/src/billing/usage-pricing.service.ts:199-210 | at every bound that is such a cliff there are two quantities of which the larger costs less |
| SubscriptionUsage.CalculateMeteredCharges | packages/api/src/billing/usage-pricing.service.ts:289-318 | the loop over the entitlements makes one charge for each with usage, in order, and fails with the first price that fails |
| SubscriptionUsage.CalculateSubscriptionUsage | packages/api/src/billing/usage-pricing.service.ts:235-336 | base price, one charge for each entitlement with usage, totals and currency of any subscription; nothing without offer version, pricing or matching workspace; the first failing price fails the call |
| SubscriptionUsage.GetInvoicePreview | packages/api/src/billing/usage-pricing.service.ts:367-418 | a base line when the base price is positive, then one line for each charge |
| SubscriptionLaws.SubscriptionIsReported | packages/api/src/billing/usage-pricing.service.ts:235-336 | both services report nothing if and only if the subscription is missing, of another workspace, or without version or pricing; else its own data, the base price, the interval defaults and the currency that applies |
| SubscriptionLaws.PreviewShowsCharges | packages/api/src/billing/usage-pricing.service.ts:385-417 | the preview is a base line for a positive base price and then one line for each charge in order, with its metric, quantity and amount, which comes to quantity times unit amount |
| SubscriptionLaws.PreviewAccountsForUsage | packages/api/src/billing/usage-pricing.service.ts:271-320 | with metered pricing every charge is priced under the pricing's own configuration, and the usage lines account for all usage recorded for the entitlements; otherwise there are none |
| SubscriptionUsage.PreviewConservesMoney | packages/api/src/billing/usage-pricing.service.ts:387-417 | the preview lines add up to the total price if and only if the base price is not negative |
| HybridPricing.CalculateComponents | packages/api/src/billing/hybrid-pricing.service.ts:164-214 | each component is priced on its usage beyond the included quantity, and not at all when there is none |
| HybridPricing.CalculateEntitlements | packages/api/src/billing/hybrid-pricing.service.ts:216-259 | entitlements that no component covers are priced like the subscription, when they have usage |
| HybridPricing.CalculateHybridPricing | packages/api/src/billing/hybrid-pricing.service.ts:96-279 | the two lists of charges and the base price make up the result, for every subscription, with its error and null cases |
| HybridPricing.GenerateInvoiceLineItems | packages/api/src/billing/hybrid-pricing.service.ts:284-340 | the lines pushed in the loop are the base line followed by the lines of each component in order |
| InvoiceLaws.ChargesAreCalculations | packages/api/src/billing/hybrid-pricing.service.ts:167-258 | which charges a hybrid price consists of: metric, name, usage and configured included quantity of each, priced under its own configuration; usage that is not billable is charged nothing |
| IncludedQuantities.ChargeShifts | packages/api/src/billing/hybrid-pricing.service.ts:176-203 | a component with included quantity k costs at q what it costs without one at q - k, under every model; nothing up to k, and beyond it all but k is billable |
| IncludedQuantities.HybridPriceShifts | packages/api/src/billing/hybrid-pricing.service.ts:164-274 | hence a whole subscription with distinct component metrics costs, charge by charge and in total, what it would cost with nothing included and each component's usage smaller by what it includes, errors and nulls alike |
| IncludedQuantities.EstimateShifts | packages/api/src/billing/hybrid-pricing.service.ts:403-455 | and so do estimates, for any included quantity, usage and addition |
| InvoiceLaws.InvoiceLinesStandFor | packages/api/src/billing/hybrid-pricing.service.ts:284-340 | every line is the base line, or carries metric, name and prices of some component and a positive part of its usage: what is included of it for nothing, or all that is billed |
| InvoiceLaws.InvoiceConservesMoney | packages/api/src/billing/hybrid-pricing.service.ts:261-340 | for every subscription the invoice lines add up to the total price if and only if the base price is not negative, and no line of type usage is ever emitted |
| InvoiceLaws.ComponentConserves | packages/api/src/billing/hybrid-pricing.service.ts:299-337 | the included and the overage line of a component carry its price, and, for non-negative usage, exactly its raw quantity if and only if the included quantity is not negative |
| InvoiceLaws.InvoiceConservesQuantity | packages/api/src/billing/hybrid-pricing.service.ts:299-337 | with no negative usage or included quantity the lines of the whole invoice account for all recorded usage |
| InvoiceLaws.MetricsChargedOnce | packages/api/src/billing/hybrid-pricing.service.ts:216-259 | no metric is charged twice if and only if the component keys, and the entitlements charged on their own, are distinct; an entitlement never repeats a component |
| InvoiceLaws.UncoveredDistinct | packages/api/src/billing/hybrid-pricing.service.ts:218-225 | distinct entitlement keys are enough for the second condition |
| InvoiceLaws.ServicesAgreeExactly | packages/api/src/billing/hybrid-pricing.service.ts:158-274 | without components the two services give the same base, usage and total price, currency, error or null, except exactly for a metered flat price that is not zero, which the other service also charges as a base price |
| InvoiceLaws.EstimateMatchesCharge | packages/api/src/billing/hybrid-pricing.service.ts:403-455 | the estimated total is what the hybrid price charges for that quantity if and only if some of it is billable or the model charges nothing for nothing (a flat amount, or the fee of the first volume tier, is estimated but not charged) |
| InvoiceLaws.EstimateParts | packages/api/src/billing/hybrid-pricing.service.ts:413-455 | current and additional cost make up the total cost, the current cost is the total cost of adding nothing, and the effective unit price is the additional cost for each further unit |
| InvoiceLaws.TieredEstimateNonNegativeExactly | packages/api/src/billing/hybrid-pricing.service.ts:445-447 | further usage of a tiered component never has a negative cost if and only if its tiers pass the check of `TieredMonotoneExactly` |
| InvoiceLaws.VolumeEstimateNonNegativeExactly | packages/api/src/billing/hybrid-pricing.service.ts:445-447 | for a volume-priced component that holds if and only if no bound is a cliff |
| TotalMonotonicity.SubscriptionMonotoneExactly | packages/api/src/billing/hybrid-pricing.service.ts:164-274 | for an offer with distinct component metrics and no negative rate or fee in its tiers: usage that is nowhere smaller never lowers the total price, nor turns a price into an error by falling, if and only if every component is steady, and the metered pricing too unless components cover all entitlements; steady means no negative amount, no drop of a tiered price, and no cliff of a volume price at a positive bound |
| TotalMonotonicity.UnsteadyOfferFalls | packages/api/src/billing/hybrid-pricing.service.ts:164-274 | otherwise there are two usages, differing in one metric, of which the larger costs less |
| TotalMonotonicity.SubscriptionMonotone | packages/api/src/billing/hybrid-pricing.service.ts:164-274 | steady pricing is enough for any subscription, also when components share a metric |
| ZuoraTiers.ExportMatchesBreakdown | packages/adapters/zuora/src/zuora.adapter.ts:376-385 | for any tier list the exported ranges are the from and to that the tiered loop reports |
| ZuoraTiers.ExportKeepsMeaning | packages/adapters/zuora/src/zuora.adapter.ts:376-385 | pricing any number of units over the ranges alone gives the tiered total in dollars, less the flat amounts |
| ZuoraTiers.ExportAgreesExactly | packages/adapters/zuora/src/zuora.adapter.ts:376-385 | so Zuora bills what the tiered loop bills if and only if no tier entered has a flat amount |
| ZuoraTiers.RebuildsTiers | packages/adapters/zuora/src/zuora.adapter.ts:376-385 | bounds and rates can be rebuilt from the list, and the tiers themselves if and only if none has a flat amount |
| Calendar.DayFromYearClosed | packages/api/src/analytics/dunning-analytics.service.ts:511-525 | the calendar that the date methods work in: summed year lengths give the closed form of section 15.9.1.3 of ECMA-262 edition 5.1 |
| Calendar.FieldsMakeTheDay | packages/api/src/analytics/dunning-analytics.service.ts:511-525 | year, month and date of a day, put together by MakeDay, give that day |
| Calendar.DayHasItsFields | packages/api/src/analytics/dunning-analytics.service.ts:511-525 | MakeDay on any date within a month gives a day with those fields |
| Calendar.StepDays | packages/api/src/analytics/dunning-analytics.service.ts:514-519 | adding to the date with setDate moves by that many days, across month and year ends |
| Calendar.StepMonth | packages/api/src/analytics/dunning-analytics.service.ts:520-522 | setting the next month moves by the length of the current month, also when the date overflows |
| Calendar.StepMonthLands | packages/api/src/analytics/dunning-analytics.service.ts:520-522 | it lands on the same date of the next month exactly when that month is long enough, and otherwise in the month after, on the overflow |
| DunningTrend.StepIsDays | packages/api/src/analytics/dunning-analytics.service.ts:511-525 | a step is 1, 7, or 28 to 31 days long, and moves forward exactly for the three declared periods |
| DunningTrend.EndsExactly | packages/api/src/analytics/dunning-analytics.service.ts:313-399 | the loop ends if and only if the period is declared or the start is after the end; any other string never advances |
| DunningTrend.GetDunningTrend | packages/api/src/analytics/dunning-analytics.service.ts:304-402 | the loop that advances `current` in place gives the trend that the laws below are about, whenever it ends at all |
| DunningTrend.TrendTiles | packages/api/src/analytics/dunning-analytics.service.ts:313-399 | each point is taken at the walk's position over the step that ends where the next begins, so the periods tile time from the start to the first position beyond the end date |
| DunningTrend.TrendConserves | packages/api/src/analytics/dunning-analytics.service.ts:338-395 | newDunningStarted and amountRecovered, summed over the points, are one count and one sum over [start, end of the last period) |
| DunningTrend.TrendCountsRangeExactly | packages/api/src/analytics/dunning-analytics.service.ts:350-358 | the summed newDunningStarted is the count up to and including the end date if and only if no dunning started later in the last period |
| DunningTrend.TrendRecoversRangeExactly | packages/api/src/analytics/dunning-analytics.service.ts:338-349 | the summed amountRecovered is that of the requested range if and only if what was paid later in the last period sums to 0 |
| DunningCounts.PointRateIsShare | packages/api/src/analytics/dunning-analytics.service.ts:323-386 | counted over the invoice records: with n started in the period and p of them paid, the rate times n is within n / 2 of 100 p, and 0 for n = 0, so it lies in 0..100; the counts of started and open invoices are sizes of sets of records |
| DunningCounts.PayingNeverLowers | packages/api/src/analytics/dunning-analytics.service.ts:373-386 | marking one more invoice as paid never lowers the rate of any point |
| DunningCounts.InvoiceAddsToTrend | packages/api/src/analytics/dunning-analytics.service.ts:304-402 | one more invoice, wherever it stands, keeps the number of points and adds to each exactly its own part: count and amount due while open, one start, the amount paid; nothing to trends of other workspaces |
| DunningCounts.NoInvoices | packages/api/src/analytics/dunning-analytics.service.ts:304-402 | without invoices all figures are 0, so the previous law determines them for any table |
| DunningTrend.BacklogFlows | packages/api/src/analytics/dunning-analytics.service.ts:323-329 | the number in dunning at a later point is the earlier one plus what started minus what ended in between |
| DunningTrend.AmountAtRiskFlows | packages/api/src/analytics/dunning-analytics.service.ts:330-337 | and so is the amount at risk |
| Mrr.CalculateCurrentMrr | packages/api/src/analytics/revenue-analytics.service.ts:176-216 | the loop sums the monthly amounts of the active and trialing subscriptions of the workspace |
| Mrr.ActiveAreCounted | packages/api/src/analytics/revenue-analytics.service.ts:177-188 | the rows counted are exactly the active and trialing ones of the workspace, in order and as often as they stand in the table |
| Mrr.ArrRounding | packages/api/src/analytics/revenue-analytics.service.ts:176-240 | for any mix of intervals and counts, ARR (12 times MRR) is within 6 for each row counted of what those rows bill in a year: their amount 360, 48, 12, 4 or 1 times over their count for day, week, month, quarter and year |
| Mrr.CalculateMrrBreakdown | packages/api/src/analytics/revenue-analytics.service.ts:811-856 | the switch in the loop adds each delta's magnitude to its component |
| Mrr.EventCounts | packages/api/src/analytics/revenue-analytics.service.ts:824-853 | one more event, wherever it stands, adds the size of its delta to the component of its type, to total or not, and to netNew with the sign of the type; nothing else changes, and no events give zeros |
| Mrr.NetNewIsSignedSum | packages/api/src/analytics/revenue-analytics.service.ts:845-850 | for any events netNew is the sum of the deltas plus twice the amount by which deltas have the wrong sign |
| Mrr.NetNewIsPlainSum | packages/api/src/analytics/revenue-analytics.service.ts:811-856 | with deltas signed like their events netNew is their plain sum, and the breakdown does not depend on their order |
| Mrr.RatesAreShares | packages/api/src/analytics/revenue-analytics.service.ts:279-296 | up to rounding, gross retention is the share of previous MRR left after churn and contraction, net retention adds expansion, and churn is the share churned |
| Mrr.RetentionBounds | packages/api/src/analytics/revenue-analytics.service.ts:279-296 | gross retention is at most net retention and 10000, churn is not negative, and gross retention and churn exceed 10000 together by at most 1 |
| TopCustomers.GetTopCustomers | packages/api/src/analytics/revenue-analytics.service.ts:711-778 | grouping in a Map, a stable descending sort and a slice with any limit |
| TopCustomers.RowsArePerCustomer | packages/api/src/analytics/revenue-analytics.service.ts:741-766 | there is a row for exactly the customers with a subscription, with the MRR and the count of that customer's subscriptions |
| TopCustomers.RowsFollowFirst | packages/api/src/analytics/revenue-analytics.service.ts:741-773 | rows come in the order in which their customers first appear, each with the email of the first subscription |
| TopCustomers.TopHasTheLimit | packages/api/src/analytics/revenue-analytics.service.ts:719-777 | there is one row for each customer of the workspace with an active or trialing subscription, and the list keeps limit of them, or all but -limit for a negative limit |
| TopCustomers.GroupingConserves | packages/api/src/analytics/revenue-analytics.service.ts:741-766 | the rows' MRR sums to the current MRR and their counts to the number of subscriptions |
| TopCustomers.SortIsStable | packages/api/src/analytics/revenue-analytics.service.ts:776-776 | customers with equal MRR stay in order of first appearance |
| TopCustomers.TopIsTrueTop | packages/api/src/analytics/revenue-analytics.service.ts:769-777 | the list descends, the rows left out complete it to the grouping, and none of them has more MRR than one included |
| TopCustomers.TopConserves | packages/api/src/analytics/revenue-analytics.service.ts:769-777 | with room for every customer the list carries the whole MRR |
| Cohorts.CohortMissesLastDay | packages/api/src/analytics/revenue-analytics.service.ts:461-482 | an instant lies in the cohort of its own month or in none, and in none if and only if it comes after midnight on the last day of its month |
| Cohorts.UpdateCohort | packages/api/src/analytics/revenue-analytics.service.ts:455-574 | the stored row after a run: created with all figures, later rewritten except for those of the start, and unchanged for an empty cohort |
| CohortRecords.FiguresFromRecords | packages/api/src/analytics/revenue-analytics.service.ts:471-546 | the figures of a run off the records: customers won in the month's range, those of them with an active or trialing subscription, the MRR of both, and the two retentions as shares up to rounding |
| Cohorts.FiguresAreBounded | packages/api/src/analytics/revenue-analytics.service.ts:505-546 | the figures of one run are in order: no more customers remain than there were, and their retention lies in 0..10000 |
| Cohorts.RowMixesTwoRuns | packages/api/src/analytics/revenue-analytics.service.ts:548-573 | after any sequence of runs the row holds the start figures of the first run that found customers and all other figures of the last one |
| Cohorts.StoredRetentionIsRate | packages/api/src/analytics/revenue-analytics.service.ts:548-573 | so the stored retention is always in 0..10000 |
| Cohorts.StoredRowExactly | packages/api/src/analytics/revenue-analytics.service.ts:489-573 | given the events that any sequence of runs meets, no more customers remain in the row than at its start, whatever the subscriptions are, if and only if the last run that found customers found no more of them than the first one |
| Cohorts.NoNewcomersKeepOrder | packages/api/src/analytics/revenue-analytics.service.ts:489-573 | in particular when no customer joins the cohort between those two runs |
| Cohorts.NewcomerBreaksOrder | packages/api/src/analytics/revenue-analytics.service.ts:548-573 | a concrete failure: a second customer makes a row with 1 at the start and 2 remaining, at a retention of 10000 |
| Cohorts.GetCohortAnalysis | packages/api/src/analytics/revenue-analytics.service.ts:579-616 | regrouping in a Map and slicing |
| Cohorts.RowsAreFilters | packages/api/src/analytics/revenue-analytics.service.ts:595-613 | for input in any order, each row holds exactly the stored cells of its month, in order |
| Cohorts.RegroupingLosesNothing | packages/api/src/analytics/revenue-analytics.service.ts:584-615 | for input in the query's order the rows laid end to end are the stored cells, one row for each month, ascending |
| CohortRecords.AnalysisRestoresExactly | packages/api/src/analytics/revenue-analytics.service.ts:592-613 | for input in the query's order the stored rows can be read back from the analysis, field by field, unchanged if and only if the rows of each month agree on customersAtStart |
| ProviderCache.BillingService.constructor | packages/api/src/billing/billing.service.ts:45-77 | a new service has the global providers that the environment configures and an empty cache |
| ProviderCache.BillingService.GetProviderForWorkspace | packages/api/src/billing/billing.service.ts:87-137 | cached adapter, else one built from the settings and cached, else the global one, else an error; the whole new state |
| ProviderCache.BillingService.IsConfiguredForWorkspace | packages/api/src/billing/billing.service.ts:142-173 | true if and only if the provider could be obtained in the same state |
| ProviderCache.BillingService.ConfigureProviderForWorkspace | packages/api/src/billing/billing.service.ts:179-223 | a complete configuration replaces the cached adapter, an incomplete one changes nothing |
| ProviderCache.BillingService.ClearWorkspaceCache | packages/api/src/billing/billing.service.ts:229-231 | drops all adapters of one workspace and nothing else |
| ProviderCache.BillingService.CacheWorkspaceProvider | packages/api/src/billing/billing.service.ts:233-242 | makes the workspace's own map on first use and sets the adapter in it |
| ProviderCache.BillingService.ConfigureProvider | packages/api/src/billing/billing.service.ts:252-264 | only a complete Stripe configuration changes the global providers |
| ProviderCache.CacheFollowsHistory | packages/api/src/billing/billing.service.ts:87-242 | after any sequence of calls the cache holds, for each workspace and provider, what a backward reading of the history says was last cached since the last clear |
| ProviderCache.SettingsRoundTrip | packages/api/src/billing/billing.service.ts:98-130 | credentials written into settings are read back unchanged, for their own provider and if and only if no required field is empty; fields of the other provider do not matter |
| ProviderCache.ConfigureThenGet | packages/api/src/billing/billing.service.ts:179-223 | a workspace that has been configured gets just these credentials, whatever settings are passed; a configuration that is incomplete or of the other provider changes nothing |
| ProviderCache.ClearThenGet | packages/api/src/billing/billing.service.ts:229-231 | after a clear a workspace is served anew from its settings, else globally, else not at all, and other workspaces keep their adapters |
| ProviderCache.GetFollowsHistory | packages/api/src/billing/billing.service.ts:87-173 | after any sequence of calls a workspace gets what was last cached since its last clear, else what its settings give, else the global provider, and counts as configured if and only if it gets one |
| ProviderCache.OthersUnaffected | packages/api/src/billing/billing.service.ts:87-242 | no operation on one workspace changes what another one gets |
| ProviderCache.CachedAdapterStays | packages/api/src/billing/billing.service.ts:93-96 | a cached adapter is returned whatever settings are passed, through any calls, until the workspace is cleared or the provider configured anew |
| ProviderCache.AlwaysIsolated | packages/api/src/billing/billing.service.ts:87-242 | in every reachable state no adapter is shared by two workspaces, by two providers, or with the global ones, and each is of its provider |
| AuditPagination.CursorComesLast | packages/api/src/audit/audit.service.ts:73-95 | the cursor condition selects the rows below the cursor among those that pass the other filters |
| AuditFilters.SelectedIsAsked | packages/api/src/audit/audit.service.ts:73-95 | a row is selected if and only if it is in the table, of the workspace, equal to every filter given, within the inclusive dates and below the cursor; order and multiplicity are kept |
| AuditFilters.ListingIsAsked | packages/api/src/audit/audit.service.ts:57-118 | no page of a listing holds a row that was not asked for |
| AuditFilters.ListingIgnoresOthers | packages/api/src/audit/audit.service.ts:57-118 | adding, removing or changing rows of other workspaces leaves every page as it is |
| AuditFilters.AnswersIgnoreOthers | packages/api/src/audit/audit.service.ts:57-118 | the same however the database orders rows of equal creation time |
| AuditPagination.NextPageIsSmaller | packages/api/src/audit/audit.service.ts:87-99 | every further page is taken from strictly fewer rows, so following nextCursor ends |
| AuditPagination.DeliversOnceExactly | packages/api/src/audit/audit.service.ts:87-99 | if the database keeps one order of the rows for all pages: following nextCursor delivers every row exactly once if and only if, around the last row of every page but the final one, ids agree with that order; and then in that order |
| AuditPagination.DeliversForEveryLimit | packages/api/src/audit/audit.service.ts:87-99 | in that case it does so for every limit if and only if the ids descend all the way |
| AuditPagination.ListingDeliversExactly | packages/api/src/audit/audit.service.ts:57-118 | the same for the service, with any filters over any table |
| AuditTies.AlwaysDeliversExactly | packages/api/src/audit/audit.service.ts:87-99 | for rows sorted by creation time, with ties in any order and ordered anew for every page: every row is delivered exactly once, however the database breaks ties, if and only if the last row of every page but the final one has a creation time of its own and ids agree with creation time around it |
| AuditTies.ListingAlwaysDeliversExactly | packages/api/src/audit/audit.service.ts:57-118 | the same for the service, with any filters over any table that is sorted newest first |
| AuditPagination.RowLost | packages/api/src/audit/audit.service.ts:87-99 | a concrete failure: of two rows of which the newer has the smaller id, the older is never delivered |
| Anonymizer.AnonymizePII | packages/api/src/audit/audit.interceptor.ts:44-96 | the recursion with its loops over arrays and records computes the masking that the laws below are about |
| MaskingRules.EntryIsLogged | packages/api/src/audit/audit.interceptor.ts:19-96 | in any record, which keys are masked and how: the 19 listed keys, and all that mention an email or a password in letters of any case; an address, a name, or the redaction text for everything else |
| MaskingRules.OthersAreLogged | packages/api/src/audit/audit.interceptor.ts:44-51 | outside records nothing is masked: arrays are logged item by item, and everything else as it is |
| MaskingRules.MaskedAddress | packages/api/src/audit/audit.interceptor.ts:65-72 | of an address the first characters of local part and first label remain, and the further labels |
| MaskingRules.NoAddress | packages/api/src/audit/audit.interceptor.ts:67-75 | a text without @ or with more than one is hidden altogether |
| MaskingRules.MaskedName | packages/api/src/audit/audit.interceptor.ts:76-81 | of a name the first character of each word remains |
| Anonymizer.AnonymizeKeepsShape | packages/api/src/audit/audit.interceptor.ts:49-95 | arrays, keys and their order, and all scalars under other keys, are kept; masked values are strings |
| Anonymizer.LoggedAlikeExactly | packages/api/src/audit/audit.interceptor.ts:64-87 | two trees are logged alike if and only if they differ only in what masking hides |
| Anonymizer.MaskEmailTwice | packages/api/src/audit/audit.interceptor.ts:65-75 | the mask of an e-mail address is stable if and only if its local part and first domain label are not empty (an empty one prints as undefined) |
| Anonymizer.MaskNameTwice | packages/api/src/audit/audit.interceptor.ts:76-81 | the mask of a name is stable if and only if it has no empty word |
| Anonymizer.IdempotentExactly | packages/api/src/audit/audit.interceptor.ts:44-96 | masking a tree twice equals masking it once if and only if every address in it is stable and every value under a name key is a stable string |

## Left out

- Database access, controllers, request validation and dependency injection: the model starts from query results.
- User interfaces, HTTP calls to Stripe and Zuora, webhook signatures and cryptography.
- `calculateCustomerMetricUsage`, `getUsageReportData` and `getUsageSummaryForDisplay`: single calls or renamings of
  results that are modelled.
- `buildChargeData` beyond its tier ranges, the charge model and billing period tables: field renaming.
- `getDunningAnalytics`, `getRecoveryFunnel` and `getDeclineCodeBreakdown`: plain counts over a filtered list.
- ARPU, LTV, snapshots and period comparison: single formulas over figures that are modelled.
- UnitPricing.TieredIsUnitByUnit: is about well-formed lists, because in others no single tier holds a unit.
- ZuoraTiers.ExportKeepsMeaning: likewise is about well-formed lists.
- Floating-point error, time zones and daylight saving, and instants outside the range of JavaScript dates.
- DunningTrend.GetDunningTrend: requires that the loop ends, since a Dafny method must; `EndsExactly` says when it does.
- Cohorts.UpdateCohort: takes the new_subscription events as given.
- Cohorts.GetCohortAnalysis: takes the rows in the order of the query, whose filter and sort are not modelled.
- ProviderCache.BillingService.GetProviderForWorkspace: takes an adapter to be its credentials and its serial number; what an adapter does is not modelled.
- Letters outside A to Z in `toLowerCase`, UTF-16 code units, the order of integer-like keys and the key `__proto__` in
  records built by the masking.
- Logging, and the remaining accessors of global providers and provider references.
