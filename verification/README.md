# QSR synthetic sales generator — Dafny model

This project models `generate_qsr_sales_data` in `data/generate_qsr_data.py`.
That function builds a two-year table of daily sales for 50 quick-service
restaurants (QSR), then sorts it. The model covers four parts:

- **the store roster**: identifiers `STORE_001` … `STORE_050` and the per-store metadata;
- **the calendar columns of a date**: weekday with Monday as 0, month, quarter, ISO
  week, weekend flag, and holiday membership by the formatted date. It also covers the
  inclusive day range from 2022-01-01 to 2023-12-31;
- **the per-record pipeline**: the baseline times the weekday, month, holiday, weather,
  store-type and size effects. Then, in order: additive noise, clamp at zero, promotion
  uplift, ticket draw with a floor of 5.0, the truncating guest count, the promotion
  guest uplift, and the average ticket computed back from sales and guests;
- **assembly**: one record per (store, date) pair in loop order, then sorted by
  `(date, store_id)`.

Every random draw is an input:

- **Store draws.** Each store's draws arrive as a `StoreDraw`: the chosen type and
  region, the baseline and the size factor.
- **Record draws.** Each record's draws arrive as a `RecordDraw`. A normal draw
  `np.random.normal(mean, sd)` is given as its standard score `z` and becomes
  `mean + sd * z`.
- **Oracle indexing.** The whole run takes the draws as two oracles. `storeDraw(k)`
  serves the `k`-th store. `recordDraw(i)` serves the `i`-th record produced, where
  `i = s * 730 + k` for store `s` on day `k`, because the loop runs stores outside and
  dates inside.

Amounts are exact `real`s, so no floating-point rounding enters the model.

Modules, one file each:

- `digits.dfy` (`Digits`): Python's `str(n)` and `zfill`, reading digits back, and
  code-point string order.
- `calendar.dfy` (`Calendar`): the calendar follows CPython's `datetime`.
  - `toordinal()` is the day number, with 0001-01-01 as day 1.
  - `weekday()` is computed from the day number.
  - `isocalendar()` uses CPython's own algorithm, the Monday of week 1, and is proved
    equal to the Thursday rule of section 4.1.4 of ISO 8601:2004.
  - `strftime('%Y-%m-%d')` is built from zero-padded fields, and pandas `date_range`
    lists the start plus `k` days for each `k` up to the end.
- `stores.dfy` (`Stores`): the roster.
- `simulation.dfy` (`Simulation`): the tables, the pipeline steps, and the stored record.
- `assembly.dfy` (`Assembly`): the loop order, the sort, and the whole run.

`generate_qsr_sales_data` has no year-over-year growth factor and no train/validation
split; neither is modelled.

## Model

| member | source | states |
|---|---|---|
| Digits.ZFillDecimalValue | data/generate_qsr_data.py:21 | `str(i).zfill(w)` is a digit string that reads back as `i`, so padding never loses the store number |
| Digits.ZFillWidth | data/generate_qsr_data.py:21 | a number below `10^w` padded by `zfill(w)` is exactly `w` characters long |
| Digits.LexLessDigitsIsNumeric | data/generate_qsr_data.py:21 | among digit strings of equal length, string order is numeric order |
| Digits.LexLessTotal | data/generate_qsr_data.py:140 | two different strings are ordered one way or the other, so the store-id sort key is total |
| Stores.Roster | data/generate_qsr_data.py:26-35 | the roster has one metadata entry per store, in roster order, carrying that store's identifier and its own draws of type, region, baseline and size factor |
| Stores.ChoiceListsComplete | data/generate_qsr_data.py:22-23 | the lists `random.choice` picks from hold each store type and each region exactly once |
| Stores.StoreIdDigits | data/generate_qsr_data.py:21 | an identifier is `STORE_` followed by three digits that read back as the store number |
| Stores.StoreIdInjective | data/generate_qsr_data.py:21 | different store numbers give different identifiers |
| Stores.StoreIdOrder | data/generate_qsr_data.py:21 | identifiers compare as strings exactly as their store numbers compare, in both directions |
| Stores.StoreIdsIncreasing | data/generate_qsr_data.py:21 | the roster's identifiers are strictly increasing in string order and pairwise distinct |
| Stores.RosterIdentifiers | data/generate_qsr_data.py:21 | the roster has 50 identifiers, the first `STORE_001`, the second `STORE_002`, the last `STORE_050` |
| Calendar.Weekday | data/generate_qsr_data.py:65 | the weekday is in 0..6 |
| Calendar.NextDay | data/generate_qsr_data.py:18 | the day after a valid date is a valid date whose day number is one more |
| Calendar.WeekdayNextDay | data/generate_qsr_data.py:65 | the next day is one weekday later, Sunday wrapping to Monday, and comes later in the calendar |
| Calendar.OrdinalOrder | data/generate_qsr_data.py:140 | comparing (year, month, day) is comparing day numbers, and equal day numbers mean equal dates |
| Calendar.Quarter | data/generate_qsr_data.py:123 | the quarter is in 1..4 and its three months are the month's |
| Calendar.QuarterMonotone | data/generate_qsr_data.py:123 | a later month never has an earlier quarter |
| Calendar.IsoWeekDateThursdayRule | data/generate_qsr_data.py:125 | the `isocalendar()` algorithm, over day numbers, puts each week in the year holding its Thursday and numbers it by whole weeks from that year's start |
| Calendar.IsoCalendarThursdayRule | data/generate_qsr_data.py:125 | `isocalendar()` of a date satisfies the ISO 8601 Thursday rule, its week is in 1..53, and its weekday is `weekday() + 1` |
| Calendar.FieldsOf | data/generate_qsr_data.py:121-126 | the calendar columns are the date's weekday, month and year, a quarter matching the month, the week of `isocalendar()` (in 1..53), and a weekend flag set exactly on Saturday and Sunday |
| Calendar.FormatDateInjective | data/generate_qsr_data.py:73 | different dates print differently under `%Y-%m-%d` |
| Calendar.FieldTexts | data/generate_qsr_data.py:73 | the month and day fields are two digits wide, and each printed field reads back as its number |
| Calendar.HolidayText | data/generate_qsr_data.py:52-55 | each listed holiday text is how the matching holiday date prints |
| Calendar.IsHolidayByDate | data/generate_qsr_data.py:73 | the printed date is in the holiday list exactly when the date is one of the eight holiday dates |
| Calendar.AddDays | data/generate_qsr_data.py:18 | `k` days after a valid date is a valid date whose day number is `k` more |
| Calendar.DateRange | data/generate_qsr_data.py:18 | the range has one entry per day from start to end, the `k`-th being the valid date `k` days after the start |
| Calendar.DateRangeCovers | data/generate_qsr_data.py:18 | the range starts at the start, ends at the end, and holds every date in between at its offset |
| Calendar.DateRangeIncreasing | data/generate_qsr_data.py:18 | later entries of the range are later dates, so no day repeats |
| Calendar.StudyPeriodLength | data/generate_qsr_data.py:16-18 | 2022-01-01 to 2023-12-31 inclusive is 730 days |
| Calendar.NewYear2022 | data/generate_qsr_data.py:121-127 | 2022-01-01 is a Saturday (weekday 5), in ISO week 52 of 2021, in quarter 1, and a listed holiday |
| Simulation.DowEffect | data/generate_qsr_data.py:43 | every weekday has a multiplier between 0.8 and 1.3, and weekend days have at least 1.1 |
| Simulation.SeasonalEffect | data/generate_qsr_data.py:46 | every month has a multiplier between 0.85 and 1.25 |
| Simulation.TypeEffect | data/generate_qsr_data.py:49 | every store type has a multiplier between 0.9 and 1.3 |
| Simulation.HolidayEffect | data/generate_qsr_data.py:73 | the effect is 0.4 or 1.0, and below 1.0 exactly on the listed holiday dates (the text test of line 73 is the same test, by `Calendar.IsHolidayByDate`) |
| Simulation.TicketMean | data/generate_qsr_data.py:99-103 | the ticket mean of any store type lies between 11.0 and 15.0 |
| Simulation.ExpectedSalesNonNegative | data/generate_qsr_data.py:62-86 | the baseline times the six effects is non-negative whenever the baseline, the size factor and the weather effect are |
| Simulation.WeatherEffect | data/generate_qsr_data.py:76-77 | the weather effect is at least 0.5 and at least the sample; it is the sample when the sample is at least 0.5 and exactly 0.5 when the sample is below |
| Simulation.NoisySales | data/generate_qsr_data.py:89-90 | sales after noise are non-negative and at least the noisy value; they are the noisy value when it is non-negative and exactly 0 when it is negative |
| Simulation.PromoSales | data/generate_qsr_data.py:93-95 | sales rise by a quarter only when a promotion runs, and are unchanged otherwise, so non-negative sales never drop |
| Simulation.SampledTicket | data/generate_qsr_data.py:105-106 | the ticket is at least 5.0; it is the sample when the sample is at least 5.0 and exactly 5.0 when the sample is below |
| Simulation.Trunc | data/generate_qsr_data.py:108 | `int()` rounds toward zero: the result is the integer within one of the input on the side of zero |
| Simulation.GuestCount | data/generate_qsr_data.py:108 | for non-negative sales the guest count is the number of whole tickets that fit: `g * ticket <= sales < (g + 1) * ticket` |
| Simulation.TruncQuotient | data/generate_qsr_data.py:108 | truncating a non-negative quotient counts whole multiples of the divisor |
| Simulation.PromoGuests | data/generate_qsr_data.py:109-110 | without a promotion the count is unchanged; with one it is the whole part of 1.4 times the count: at least the count, at most 1.4 times it, and within one of 1.4 times it |
| Simulation.AvgTicket | data/generate_qsr_data.py:113 | the average ticket times the guest count gives back the sales when there are guests, and the ticket is 0 when there are none |
| Simulation.SalesAndGuests | data/generate_qsr_data.py:89-110 | the promotion flag is set exactly when the coin is below 0.15, and sales and guests are non-negative |
| Simulation.AfterExpected | data/generate_qsr_data.py:89-113 | after the multiplicative model the figures keep the weather effect, set the promotion by the coin, are non-negative, and satisfy the average-ticket identity |
| Simulation.SimulateDay | data/generate_qsr_data.py:62-113 | a simulated day has weather at least 0.5, a promotion exactly when the coin is below 0.15, non-negative sales and guests, and the average-ticket identity |
| Simulation.MakeRecord | data/generate_qsr_data.py:116-133 | the stored record carries the date and the store's identifier, type and region, its promotion, sales, guest, ticket and weather columns are exactly the simulated day's, and it is well formed: every calendar column is the date's own (the week being `isocalendar()[1]`), and the figures are non-negative and consistent |
| Simulation.LookupsInRange | data/generate_qsr_data.py:64-70 | the weekday and `month - 1` of a valid date index inside the 7-entry and 12-entry tables |
| Simulation.GuestCountBound | data/generate_qsr_data.py:105-110 | no guest pays less than the 5.0 floor: `5 * guests <= sales` without a promotion, `5 * guests <= 1.4 * sales` with one |
| Simulation.PromoNeverLowersGuests | data/generate_qsr_data.py:108-110 | the stored guest count is at least the whole tickets in the final sales, and equal to it without a promotion |
| Simulation.NoSalesNoGuests | data/generate_qsr_data.py:108-113 | zero sales give zero guests and a zero average ticket |
| Simulation.UnclampedDay | data/generate_qsr_data.py:76-110 | without a promotion and with the noisy sales non-negative, the day is the plain formula: the weather effect, no promotion, expected sales plus noise, and the whole tickets those sales buy at `max(5.0, sample)` each |
| Simulation.PromotedDay | data/generate_qsr_data.py:76-110 | with a promotion and the noisy sales non-negative, the day has the promotion flag, sales of 1.25 times expected sales plus noise, and guests of `int(int(sales / ticket) * 1.4)` with the ticket `max(5.0, sample)` |
| Simulation.ClampedNoiseDay | data/generate_qsr_data.py:76-113 | when expected sales plus noise fall below zero, the day records zero sales, zero guests and a zero ticket, with the promotion flag set by the coin |
| Simulation.UnclampedAfter | data/generate_qsr_data.py:89-113 | after the multiplicative model, without a promotion and with the noisy value non-negative: sales are the noisy value and guests the whole tickets in it, for any ticket draw |
| Simulation.PromotedAfter | data/generate_qsr_data.py:89-113 | after the multiplicative model, with a promotion and the noisy value non-negative: sales are 1.25 times the noisy value and guests `int(int(sales / ticket) * 1.4)`, for any ticket draw |
| Simulation.ClampedNoiseAfter | data/generate_qsr_data.py:89-113 | after the multiplicative model, a negative noisy value gives zero sales, zero guests and a zero ticket, promotion or not |
| Simulation.CalendarFlags | data/generate_qsr_data.py:126-127 | the weekend flag is `day_of_week >= 5`, and the holiday flag is membership of the printed date, which is exactly when the 0.4 effect applies |
| Assembly.Slots | data/generate_qsr_data.py:59-60 | the nested loop has `stores * dates` turns, each pairing a listed store with a listed date |
| Assembly.SlotsIndex | data/generate_qsr_data.py:59-60 | store `s` on date `k` is turn `s * D + k` |
| Assembly.SlotsLocate | data/generate_qsr_data.py:59-60 | every turn is some store `s` on some date `k` at position `s * D + k` |
| Assembly.SlotsDistinct | data/generate_qsr_data.py:59-60 | with distinct identifiers and dates, two different turns differ in date or in store |
| Assembly.Generate | data/generate_qsr_data.py:59-134 | one record per turn, carrying its turn's date and store identifier, each well formed |
| Assembly.GenerateIndex | data/generate_qsr_data.py:59-134 | the record of store `s` on date `k` sits at `s * D + k` and is built from that turn's draw |
| Assembly.GenerateDistinctKeys | data/generate_qsr_data.py:59-134 | no `(date, store_id)` key occurs twice among the produced records |
| Assembly.KeyLessTransitive | data/generate_qsr_data.py:140 | the `(date, store_id)` order is transitive |
| Assembly.KeyLessTotal | data/generate_qsr_data.py:140 | records with different keys are ordered one way or the other |
| Assembly.Insert | data/generate_qsr_data.py:140 | inserting into a sorted table keeps it sorted and adds exactly the one record |
| Assembly.SortRecords | data/generate_qsr_data.py:140 | the sorted table is non-decreasing in `(date, store_id)` and is a permutation of its input |
| Assembly.PermutationKeepsDistinctKeys | data/generate_qsr_data.py:140 | reordering the records keeps their keys distinct |
| Assembly.SortedDistinctIsStrict | data/generate_qsr_data.py:140 | a sorted table without repeated keys is strictly increasing |
| Assembly.StudyDates | data/generate_qsr_data.py:16-18 | the study period consists of valid dates |
| Assembly.StudyDatesFacts | data/generate_qsr_data.py:16-18 | the study period has 730 distinct days, from 2022-01-01 to 2023-12-31 |
| Assembly.RosterDistinctIds | data/generate_qsr_data.py:21 | a roster of fewer than 1000 stores has distinct identifiers |
| Assembly.SortedRun | data/generate_qsr_data.py:137-140 | for distinct stores and dates, the sorted table has one record per pair, each well formed, strictly increasing in `(date, store_id)`, and is a permutation of the produced records |
| Assembly.StudyRun | data/generate_qsr_data.py:137-140 | over the study period, 50 distinct stores give 36,500 sorted, well-formed records |
| Assembly.GenerateQsrSalesData | data/generate_qsr_data.py:6-142 | the run returns the roster and 36,500 records: 50 stores times 730 days, each well formed, strictly increasing in `(date, store_id)`, and a permutation of the records produced in loop order |

Some functions only compute and carry no row of their own; the lemma rows citing the
same lines state their properties. `Stores.StoreId` (line 21) is covered by the
`StoreId*` and `Digits.ZFill*` rows, `Calendar.IsoCalendar` and `Calendar.WeekOfYear`
(line 125) by the two Thursday-rule rows, `Calendar.FormatDate` (line 73) by
`FormatDateInjective`, `FieldTexts` and `IsHolidayByDate`, `Simulation.ExpectedSales`
(line 86) by `ExpectedSalesNonNegative`, `Simulation.PromoActive` (line 93) by
`SalesAndGuests` and `PromoSales`, `Simulation.Assemble`, the record constructor behind
`MakeRecord` (lines 116-133), by the `MakeRecord` row, and `Assembly.KeyLess` (line 140) by the
`KeyLess*` rows.

## Left out

- Random number generation and seeding (lines 10-11): the Mersenne Twister and the
  normal sampler are not modelled. Every draw is an input, so no run can be reproduced
  draw for draw.
- `random.choice` is modelled by the value it picked. `randint(800, 2500)` and
  `uniform(0.8, 1.3)` are modelled by the values drawn, with their ranges not assumed
  anywhere.
- Rounding to 2 and 3 decimals at lines 129-132 is not modelled. The record stores the
  exact values, and the average-ticket identity holds for them before rounding.
- IEEE floating point is not modelled. Amounts are exact reals, so products such as
  `guest_count * 1.4` carry no representation error.
- Simulation.PromoGuests: the exact product can exceed the source by one guest. In
  doubles `45 * 1.4` is `62.99999999999999`, so line 110 stores 62 where the exact
  model stores 63; the same happens for 85, 90, 165, 170 and other counts.
- pandas is not modelled: `DataFrame` construction, `iterrows`, and the index reset
  after the sort. `date_range` is modelled as a list of dates.
- The sort algorithm is not modelled. `sort_values` is modelled by an insertion sort
  with the same key. Every key occurs once, so stability makes no difference to the
  result.
- `main` (lines 144-177) is not modelled: CSV writes, console summaries, and the
  exception handler are I/O only.
- The two progress messages printed inside `generate_qsr_sales_data` (lines 13 and 57)
  are console output only and are not modelled.
- `config/config.py` is not part of this model. It only loads YAML and looks up
  dictionary keys.
- `scripts/test_mlflow.py` is not part of this model. It only exercises an external
  tracking service and the file system.
- The `%Y` field is modelled as the year padded to four digits. That matters only
  before year 1000, which the generator never reaches.
- Stores.StoreIdOrder: string order equals numeric order only for stores below 1000.
  `zfill(3)` widens larger numbers, and the roster stops at 50.
- Simulation.TicketMean: the contract bounds the mean between 11.0 and 15.0. The exact
  per-type values are given only by the definition.
