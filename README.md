# Referral dashboard aggregation, modelled in Dafny

This project models the client-side aggregation pipeline of a referral
dashboard, and proves properties of it. The pipeline takes referral codes as
the backend sends them and turns them into what the dashboard shows:

- **Earnings** (`earnings.dfy`): event counters times commission-rule rates
  give a per-event breakdown, a rounded total and a currency. The same is then
  added up over many codes.
- **Transformers** (`transformers.dfy`): a backend referral code becomes a
  dashboard referral code. Defaults are filled in, a status (active, inactive,
  exhausted) is derived and earnings are attached. The dashboard totals are a
  fold over all codes. The earliest start date is also computed here.
- **Time series** (`time_series.dfy`): one bucket per calendar day, counting
  signups and events by type. The range of days is pre-filled, and the buckets
  are sorted by date key. Also the earliest event date.
- **Filters** (`filters.dfy`): case-insensitive substring search over chosen
  fields. A sort by one field, with computed fields (`signups`,
  `totalConversions`), `total` read from object values, and missing values
  kept last.
- **Filter state** (`use_filters.dfy`): the table's search term and sort
  configuration, held in a class whose methods make the table controls'
  transitions.
- **Purchase history** (`purchase_history.dfy`): recognising purchase events
  by the types of their fields, and parsing a record's events. Then revenue,
  trial and paid conversions, and events within a period.
- **Home view** (`home_view.dfy`): event types formatted as titles, and the
  display-name lookup built from commission rules. Also the summary lines
  under the conversions and earnings cards.

Supporting modules:

- `Dictionaries`: JavaScript objects and `Map`s with string keys, as
  insertion-ordered association lists.
- `Counters`: records of numbers, and adding them key by key.
- `Money`: `Number(x.toFixed(2))` on exact numbers.
- `Text`: ASCII case mapping, `split`, `join`, `includes` and `trim`.
- `Js`: JavaScript values, truthiness, `||`, `String(v)`, `new Date(v)`, and
  the `YYYY-MM-DD` day key.
- `Seqs`: `Array.prototype.filter`.
- `Sorting`: `Array.prototype.sort`, as a stable insertion sort under the
  source's comparator.

Some library behaviour cannot be seen from the program. It is a parameter:
a `Js.Host` value whose fields hold it. These are date parsing,
`toISOString`, number-to-string conversion, `localeCompare`,
`toLocaleString`, the currency formatter and `JSON.parse`. The current
instant is also a parameter: `now`, in milliseconds. Numbers are exact reals.

### Behaviour worth noting

- **Earnings total.** The total adds every rule's unrounded amount
  (`frontend/src/utils/earnings.ts:17-19`). So two rules for one event both
  count in the total, while the breakdown keeps only the later one.
  `Earnings.DuplicateEventTotalExceedsBreakdown` gives such a case.
  `Earnings.TotalIsBreakdownSum` proves that the total is the sum of the
  breakdown when no two rules share an event and every amount is in whole
  cents.
- **Rule currency.** A rule's currency replaces the running one only when it
  is non-empty (`frontend/src/utils/earnings.ts:21`).
- **Dashboard currency.** The fold replaces the currency with that of each
  code that has earnings, so it ends as the last such code's currency. The
  `find` default (`frontend/src/utils/transformers.ts:96-97`) only matters
  when no code has earnings, and then it is "USD".
- **Default start date.** The start date is the given one, or else 30 days
  before now (`frontend/src/utils/timeSeries.ts:36-42`).

## Model

| member | source | states |
|---|---|---|
| Money.Round2 | frontend/src/utils/earnings.ts:18 | `Number(x.toFixed(2))` is a whole number of cents within half a cent of `x`, and non-negative for non-negative `x` |
| Money.Round2OfCents | frontend/src/utils/earnings.ts:26 | an amount already in whole cents is left unchanged by rounding |
| Counters.AddTo | frontend/src/utils/transformers.ts:105 | `acc[k] = (acc[k] \|\| 0) + x` adds `x` under `k`, leaves every other key, adds `k` to the keys, and raises the sum by `x` |
| Counters.MergeAdd | frontend/src/utils/earnings.ts:52-54 | merging a record into an accumulator adds each key's values, unions the keys and adds the sums |
| Counters.AddEntries | frontend/src/utils/transformers.ts:122-125 | the loop over `Object.entries` computes the merge |
| Counters.MergeAll | frontend/src/utils/earnings.ts:47-55 | folding many records gives, per key, the total over all records, and the grand total as sum |
| Counters.KeyTotalOfDistinct | frontend/src/utils/transformers.ts:101-107 | over records with distinct keys, each key's merged value is the sum of its lookups |
| Earnings.CalculateEarnings | frontend/src/utils/earnings.ts:6-29 | the loop computes the last-rule-wins breakdown, the rounded raw total and the currency |
| Earnings.ApplyRule | frontend/src/utils/earnings.ts:16-21 | one pass of that loop: the rule's rounded amount is stored under its event (in place, or appended when new), its raw amount is added to the total, and only a non-empty currency replaces the running one |
| Earnings.BreakdownKeys | frontend/src/utils/earnings.ts:15-18 | the breakdown has exactly one entry per event some rule names |
| Earnings.LastRuleWins | frontend/src/utils/earnings.ts:18 | an event's entry is the rounded amount of the last rule that names it |
| Earnings.UncountedEventEarnsNothing | frontend/src/utils/earnings.ts:16 | a rule whose event has no count earns 0 |
| Earnings.NoRulesEarnNothing | frontend/src/utils/earnings.ts:10-13 | no rules give an empty breakdown, total 0 and "USD" |
| Earnings.CurrencyOfLastNamingRule | frontend/src/utils/earnings.ts:21 | the currency is that of the last rule with a non-empty one |
| Earnings.CurrencyWithoutNamingRule | frontend/src/utils/earnings.ts:13 | with no currency named, the first rule's is kept, or "USD" without rules |
| Earnings.DistinctRulesBreakdownSum | frontend/src/utils/earnings.ts:15-19 | with distinct events, the breakdown sums to the rounded amounts added up |
| Earnings.TotalIsBreakdownSum | frontend/src/utils/earnings.ts:19-26 | with distinct events and whole-cent amounts, the total is the sum of the breakdown |
| Earnings.DuplicateEventTotalExceedsBreakdown | frontend/src/utils/earnings.ts:18-19 | two rules for one event: the breakdown keeps only the later amount, the total adds both |
| Earnings.CalculateTotalEarnings | frontend/src/utils/earnings.ts:34-62 | the loop merges every code's breakdown, sums and rounds the totals, and keeps the last code's currency |
| Earnings.AddCodeEarnings | frontend/src/utils/earnings.ts:47-54 | one pass of that loop merges the next code's breakdown into the aggregate, adds its total, and takes its currency |
| Earnings.AggregateEntryIsSumOverCodes | frontend/src/utils/earnings.ts:52-54 | each aggregate entry is that event's entries summed over the codes; the keys are all codes' events |
| Transformers.TransformReferralCode | frontend/src/utils/transformers.ts:28-79 | inactive iff the end is past or the start is future; exhausted iff not inactive and the count sum reaches a numeric quota; `id`, `code` and `noOfDays` are copied; `commissionConfig` defaults to `[]`; `quota` is kept iff it is a number; `createdAt`, dates, counters and earnings fall back as the code does |
| Transformers.TransformReferralCodes | frontend/src/utils/transformers.ts:84-88 | one transformed code per backend code, in order |
| Transformers.DefaultCurrency | frontend/src/utils/transformers.ts:96-97 | with no code having earnings, the default currency is "USD" |
| Transformers.LastEarningsCurrency | frontend/src/utils/transformers.ts:117-119 | no currency is overwritten exactly when no code has earnings |
| Transformers.CalculateDashboardStats | frontend/src/utils/transformers.ts:93-143 | the fold counts statuses, merges counters and breakdowns, sums and rounds totals, and keeps the last earning code's currency |
| Transformers.Accumulate | frontend/src/utils/transformers.ts:101-129 | the reduce callback adds one code's counters, status, breakdown, total and currency into the running totals |
| Transformers.ReduceCounts | frontend/src/utils/transformers.ts:109-115 | from the empty totals, each status counter ends as the number of codes with that status |
| Transformers.ReduceEventStats | frontend/src/utils/transformers.ts:103-107 | from the empty totals, the event counters end as all codes' counters merged key by key |
| Transformers.ReduceEarnings | frontend/src/utils/transformers.ts:117-126 | from the empty totals, the breakdown is all earning codes' breakdowns merged, the total their sum, the currency the last one's |
| Transformers.NoCodesGiveEmptyStats | frontend/src/utils/transformers.ts:8-23 | no codes give the empty dashboard statistics |
| Transformers.StatusCountsAddUp | frontend/src/utils/transformers.ts:109-115 | active, inactive and exhausted counts add up to the number of codes |
| Transformers.EventStatsArePerKeySums | frontend/src/utils/transformers.ts:103-107 | each dashboard counter is that event's counter summed over the codes |
| Transformers.CurrencyOfLastCodeWithEarnings | frontend/src/utils/transformers.ts:117-119 | the dashboard currency is that of the last code with earnings |
| Transformers.DashboardEarningsAgreeWithTotalEarnings | frontend/src/utils/transformers.ts:117-141 | over transformed codes, the dashboard earnings equal `calculateTotalEarnings` over the same counters and rules |
| Transformers.CandidateTimes | frontend/src/utils/transformers.ts:156-166 | the collected instants are exactly the codes' valid candidate instants |
| Transformers.Min | frontend/src/utils/transformers.ts:170 | `Math.min` of a non-empty list is a member no greater than any |
| Transformers.GetEarliestStartDate | frontend/src/utils/transformers.ts:149-172 | the loop collects the candidate instants and returns the day key of the smallest |
| Transformers.EarliestStartIsMinimum | frontend/src/utils/transformers.ts:152-171 | no date iff no code has a valid candidate; otherwise the day of a candidate no greater than any other |
| TimeSeries.ToDateKey | frontend/src/utils/timeSeries.ts:3-17 | a date key holds no `T` and is the day key of some instant |
| TimeSeries.CountOn | frontend/src/utils/timeSeries.ts:61-65 | one count added to the day's bucket, the bucket made when missing |
| TimeSeries.ClassifyEvent | frontend/src/utils/timeSeries.ts:73-93 | legacy purchases count as `free_trial` or `purchase` on their purchase day; other events under their type on the first date present |
| TimeSeries.CountEvents | frontend/src/utils/timeSeries.ts:73-94 | the inner loop adds each event's count in order |
| TimeSeries.FillRange | frontend/src/utils/timeSeries.ts:46-55 | the while loop writes an empty bucket per day from start to end |
| TimeSeries.FillDay | frontend/src/utils/timeSeries.ts:49-53 | one pass of that loop sets the day's bucket to an empty one when the day has a key, leaves every other key alone, and leaves the same buckets to fill from the next day on |
| TimeSeries.CountSignups | frontend/src/utils/timeSeries.ts:58-67 | one `signup` per user with a valid day |
| TimeSeries.CountAllEvents | frontend/src/utils/timeSeries.ts:70-95 | the events of every user whose `events` is an array |
| TimeSeries.BuildTimeSeriesFromUsers | frontend/src/utils/timeSeries.ts:28-100 | the range is pre-filled, signups then events are counted, and the buckets are sorted by date |
| TimeSeries.BucketsShape | frontend/src/utils/timeSeries.ts:33-95 | one bucket per day, each stored under its own date: the pre-filled days plus the counted days |
| TimeSeries.SeriesDays | frontend/src/utils/timeSeries.ts:45-99 | the series' dates are exactly the pre-filled days and the days a signup or event falls on |
| TimeSeries.DefaultRangeCovered | frontend/src/utils/timeSeries.ts:36-54 | without dates, every day from 30 days ago up to now has a bucket |
| TimeSeries.SeriesCounts | frontend/src/utils/timeSeries.ts:57-95 | each bucket counts, per kind, exactly the signups and events of that kind on its day |
| TimeSeries.SeriesTotal | frontend/src/utils/timeSeries.ts:57-99 | all counts together equal the number of counted signups plus counted events |
| TimeSeries.TotalSort | frontend/src/utils/timeSeries.ts:97-99 | sorting the buckets leaves their total unchanged |
| TimeSeries.SeriesDistinctDates | frontend/src/utils/timeSeries.ts:33-99 | no day appears twice in the series, whatever `localeCompare` does |
| TimeSeries.SeriesAscending | frontend/src/utils/timeSeries.ts:97-99 | when `localeCompare` orders the series' day keys totally and tells different day keys apart, the dates are strictly ascending |
| TimeSeries.GetEarliestEventDate | frontend/src/utils/timeSeries.ts:106-126 | the loop keeps the smallest valid event instant and returns its day key |
| TimeSeries.EarliestTimeIsMinimum | frontend/src/utils/timeSeries.ts:111-122 | no instant iff no event has a valid one; otherwise some event's instant, no greater than any |
| TimeSeries.EarliestEventDateIsMinimum | frontend/src/utils/timeSeries.ts:106-126 | the earliest date is the day of the smallest valid event instant, missing when there is none |
| Seqs.FilterMembers | frontend/src/utils/filters.ts:21 | `filter` keeps exactly the elements satisfying the predicate |
| Seqs.FilterSubsequence | frontend/src/utils/filters.ts:21 | `filter` keeps the elements in their order |
| Seqs.FilterCount | frontend/src/utils/filters.ts:21 | `filter` keeps every occurrence of a passing element and no occurrence of a failing one |
| Filters.ToggleSortDirection | frontend/src/utils/filters.ts:98-100 | the toggled direction differs from the current one |
| Filters.FilterItems | frontend/src/utils/filters.ts:13-28 | a blank term keeps all items; otherwise an item is kept iff some key's value contains the lower-cased term, every occurrence of it, in order |
| Filters.NoKeysKeepNothing | frontend/src/utils/filters.ts:21-26 | a non-blank term with no search keys keeps nothing |
| Filters.SortItems | frontend/src/utils/filters.ts:33-39 | no config returns the items themselves; otherwise a permutation of them |
| Filters.DescendingNegatesAscending | frontend/src/utils/filters.ts:78-91 | descending negates the comparison of two present values; a missing value compares the same both ways |
| Filters.MissingValuesLast | frontend/src/utils/filters.ts:66-79 | sorting by a plain field puts items with a missing value after all others, in either direction |
| Filters.SortedByNumber | frontend/src/utils/filters.ts:39-91 | with numeric sort values, the result is ascending for `asc` and descending for `desc` |
| Filters.VirtualValuesOfStats | frontend/src/utils/filters.ts:44-64 | `signups` is the `signup` count or 0; `totalConversions` is the sum of all counts |
| UseFilters.NextSort | frontend/src/hooks/useFilters.ts:32-42 | a click on the current key flips the direction; any other key starts ascending |
| UseFilters.SortTwiceRestores | frontend/src/hooks/useFilters.ts:33-41 | two clicks on the same header restore the configuration |
| UseFilters.Shown | frontend/src/hooks/useFilters.ts:16-30 | the rows are `sortItems(filterItems(items))`; under a non-blank search every occurrence of a matching item is shown and nothing else; otherwise every item is shown, as often as given |
| UseFilters.ShownOrdered | frontend/src/hooks/useFilters.ts:16-30 | with numeric sort values, the rows shown under a sort are ordered by them in the configured direction, whatever the search |
| UseFilters.FilteredIsSubmultiset | frontend/src/hooks/useFilters.ts:20-22 | a filtered subsequence is a sub-multiset of the items |
| UseFilters.FilterState.constructor | frontend/src/hooks/useFilters.ts:13-14 | the state starts with no term and no sort |
| UseFilters.FilterState.SetSearchTerm | frontend/src/hooks/useFilters.ts:52 | sets the term, keeps the sort |
| UseFilters.FilterState.HandleSort | frontend/src/hooks/useFilters.ts:32-42 | the sort becomes the next configuration for the key, the term is kept, and filters are active |
| UseFilters.FilterState.ClearFilters | frontend/src/hooks/useFilters.ts:44-47 | no term, no sort, no active filters |
| UseFilters.FilterState.FilteredItems | frontend/src/hooks/useFilters.ts:16-30 | the rows are `sortItems(filterItems(items))` under the current term and sort; without active filters the items as they are; under a non-blank search every occurrence of a matching item and nothing else |
| PurchaseHistory.PurchaseEventsAreObjects | frontend/src/utils/purchaseHistory.ts:10-35 | a purchase event is an object with a numeric `price` and `purchased_at_ms` and string `type` and `period_type` |
| PurchaseHistory.ParsePurchaseEvents | frontend/src/utils/purchaseHistory.ts:40-61 | only valid events come out; every occurrence of a valid event of an array (given or parsed), in order; one parsed valid event; nothing for a failed parse or another type |
| PurchaseHistory.RevenueIsInitialPurchasePrices | frontend/src/utils/purchaseHistory.ts:66-75 | revenue is the sum of the prices of the `INITIAL_PURCHASE` events and no other |
| PurchaseHistory.CountConversions | frontend/src/utils/purchaseHistory.ts:80-100 | `trial` counts the initial purchases of period "TRIAL", `paid` those of period "NORMAL" |
| PurchaseHistory.ConversionsWithinInitialPurchases | frontend/src/utils/purchaseHistory.ts:89-97 | trial plus paid conversions never exceed the initial purchases |
| PurchaseHistory.GetEventsByDateRange | frontend/src/utils/purchaseHistory.ts:105-114 | the events kept are exactly those bought within the inclusive period, every occurrence, in order; none for an invalid bound |
| HomeView.FormatEventType | frontend/src/components/HomeView.tsx:17-22 | the title is as long as the event type, with a space for each `_`, and upper case only at the start of each word |
| HomeView.TitleOfWords | frontend/src/components/HomeView.tsx:18-21 | splitting on `_`, capitalising and joining with spaces equals the character-by-character title |
| HomeView.FreeTrialTitle | frontend/src/components/HomeView.tsx:14 | "free_trial" reads "Free Trial" |
| HomeView.BuildEventDisplayNameMap | frontend/src/components/HomeView.tsx:27-39 | the nested loops add each named rule's event once, in order over codes and rules |
| HomeView.NamesFromFirstWins | frontend/src/components/HomeView.tsx:33-35 | a name already set stays; an unnamed event gets the first name a rule gives it |
| HomeView.DisplayNameIsFirstRules | frontend/src/components/HomeView.tsx:27-39 | each event's display name is that of its first named rule over all codes; the keys are exactly the named events, without repeats |
| HomeView.LabelOfBuiltMap | frontend/src/components/HomeView.tsx:58-59 | against the map built from the codes, an event is labelled by the first rule's display name that names it, else by its formatted type |
| HomeView.BuildConversionSubtitle | frontend/src/components/HomeView.tsx:45-73 | one part per count other than `signup`, in order, joined, or "No conversions yet" |
| HomeView.ConversionPartsAreShownCounts | frontend/src/components/HomeView.tsx:52-72 | one part per non-signup count; none iff every count is `signup` |
| HomeView.BuildEarningsSubtitle | frontend/src/components/HomeView.tsx:78-98 | one part per positive amount, in order, joined, or "No earnings yet" |
| HomeView.EarningPartsAreShownAmounts | frontend/src/components/HomeView.tsx:86-97 | one part per positive amount; none iff no amount is positive |

## Left out

- Date objects as arguments to `toDateKey` and `buildTimeSeriesFromUsers` are not modelled. Dates arrive as strings or numbers and are read through the host's parser.
- Local-time day steps (`setDate`) are taken as exactly one day of milliseconds, so daylight-saving shifts are not modelled.
- Floating-point arithmetic is not modelled: numbers are exact reals, so rounding error and summation order do not matter. `NaN` is not modelled either, except that an invalid date is `None`.
- Object key order is insertion order. JavaScript lists integer-like keys first; that is not modelled.
- Case mapping (`toLowerCase`, `toUpperCase`) is ASCII only. Unicode case mapping is not modelled.
- `console.error` on a failed JSON parse is left out; only the empty result is modelled.
- The legacy branch of the conversions summary (`trialConversions`, `paidConversions`) is left out. The dashboard statistics the transformers build never carry those fields, so the branch adds no part.
- Filters.MissingValuesLast: stated for plain fields only. For the computed fields `signups` and `totalConversions` the value is never missing when both items carry `eventStats`; when either lacks it, the comparator reads the plain field, and this case is not covered.
- Filters.SortedByNumber: stated only when every sort value is a number. For strings the order depends on `localeCompare`, which is a parameter.
- TimeSeries.SeriesAscending: assumes `localeCompare` orders the series' own day keys totally and compares no two different day keys equal. Nothing is assumed of other strings. For an inconsistent comparator, `Array.prototype.sort` promises no order; that no day repeats holds regardless (`TimeSeries.SeriesDistinctDates`).
- Non-numeric values in counter records are not modelled. Counts are numbers, so `Object.values(...).reduce` never concatenates strings.
- Events that are `null` or `undefined` make the source throw on a property read. Each operation that reads them requires they are not.
- React state and memoisation are not modelled. `useFilters` is a class holding the two state variables, and `filteredItems` is a function of that state.
- The rendering in `HomeView`, and the components, services and hooks outside these files, are not part of this model.
