# Finance dashboard data layer, modelled in Dafny

This project models the data layer of a browser-based personal-finance
dashboard written in JavaScript and React. The model covers:

- **Untrusted transaction records.** `normalizeTransaction` canonicalises a
  loose record or drops it. The application shell has its own, more lenient
  sanitiser, which invents ids and dates where the other drops the record.
  Both are modelled and kept apart.
- **Backup restore.** Budget maps are cleaned, version-1 and legacy backups
  are migrated, and the restore result is built with its warnings and summary.
- **Transaction list state.** Add, delete, edit, duplicate and bulk delete
  are the methods of a class over a sequence.
- **Period ranges.** Month and year ranges, and the "previous period" used
  for comparisons.
- **Aggregations.**
  - per-year income and expense with year-over-year change;
  - per-month buckets for the line chart;
  - per-category expense totals for the pie chart;
  - overall totals;
  - monthly budget spend with its progress bar.
- **The entry form.** Its `YYYY-MM-DD` reader, calendar arithmetic, the
  recurring-date generator, split lines, the validator and what a submit
  emits.
- **Privacy consent.** The consent preferences state, the toggle rules of
  the preferences modal, and the decision of what an ad slot renders.
- **Settings numbers.** The local-storage size report and the byte formatter.
- **Currency.** Conversion against the fixed rate table.

JavaScript values are the datatype `JsVal`: null, undefined, booleans,
numbers, strings, arrays and objects. Numbers are `JsNum`: a finite exact
real, NaN or an infinity. Objects are `map<string, JsVal>`.

Dates are calendar fields: year, 0-based month, day and milliseconds of the
day. JavaScript's overflow normalisation of `Date` is modelled explicitly:
`setDate` and `setMonth` past the end of a month, `new Date(y, m, d)` with
out-of-range parts, and the 0..99 → 1900+y year rule. The ±8.64e15 ms time
limit is modelled too.

The local time zone is taken to be UTC, so local and UTC getters agree. One
visible difference is kept:

- `new Date('YYYY-MM-DD')` is UTC midnight. This is the non-recurring entry
  path (TransactionForm.jsx:173).
- `parseISODateLocal` is local noon. This is the recurring path.

Under UTC the two differ by exactly twelve hours (`TransactionForm.DateOnlyUtc`
and `TransactionForm.ParseIsoDateLocalOf`).

"Expense" means two different things in the source, and the model keeps both:

- `Ledger.IsExpense` is `type === 'expense'`. The pie chart, the summary and
  the budgets use it.
- `Ledger.NonIncomeAmount` is "not income". The year comparison and the line
  chart use it.

Stored records are not normalised, so the two really differ.

Modules follow the source files:

| module | source |
|---|---|
| `Transactions` | src/utils/transactions.js |
| `Backup` | src/utils/backup.js |
| `App` | src/App.jsx |
| `YearComparison` | src/components/YearComparison.jsx |
| `LineChart` | src/components/LineChart.jsx |
| `PieChart` | src/components/PieChart.jsx |
| `Summary` | src/components/Summary.jsx |
| `BudgetManager` | src/components/BudgetManager.jsx |
| `TransactionForm` | src/components/TransactionForm.jsx |
| `Privacy` | src/context/PrivacyPreferencesContext.jsx and src/components/PrivacyPreferencesModal.jsx |
| `AdsSlot` | src/components/AdsSlot.jsx and src/config/adsConfig.js |
| `StorageDiagnostics` | src/utils/storageDiagnostics.js |
| `Currency` | src/context/CurrencyContext.jsx |

`JsValues`, `JsText` and `Calendar` model the JavaScript built-ins that these
files rely on: `Number()`, `String()`, truthiness, `trim`, `padStart`, string
order, `Date` and its parser, and `toISOString`. `Ledger` holds the shared
folds: filter, sum, and keyed accumulation into an object.

## Model

| member | source | states |
|---|---|---|
| Transactions.SafeNumber | src/utils/transactions.js:4-7 | the result is `Number(v)` when that is finite and 0 otherwise, so it is never NaN or infinite |
| Transactions.SafeDate | src/utils/transactions.js:9-12 | a date comes back exactly when `new Date(v)` is valid; it is that date and lies within the representable time range |
| Transactions.SafeCategory | src/utils/transactions.js:14-17 | the label trimmed of JavaScript white space when that is non-empty, otherwise the fallback |
| Transactions.SafeType | src/utils/transactions.js:19 | the result is 'income' exactly for the string 'income'; every other value yields 'expense' |
| Transactions.NormalizeTransaction | src/utils/transactions.js:23-30 | null exactly when the value is falsy or not of type object, its date does not parse, or its id is null or undefined; no id is ever invented |
| Transactions.NormalizeTransactionShape | src/utils/transactions.js:31-39 | a kept record keeps its id and every non-canonical field; its date is the ISO text of the parsed date; type, category, amount and description are the sanitised values |
| Transactions.NormalizeTransactionCanonical | src/utils/transactions.js:31-39 | every kept record is a canonical record: valid ISO date, type income/expense, trimmed non-empty category, finite amount, string description, non-null id |
| Transactions.SafeDateOfIso | src/utils/transactions.js:9-12 | the ISO text of any representable date reads back as the same date |
| Transactions.NormalizedRecordIsFixed | src/utils/transactions.js:23-39 | normalising a canonical record returns it unchanged |
| Transactions.NormalizeIdempotent | src/utils/transactions.js:23-39 | normalising a normalised record gives the same record again |
| Transactions.NormalizeTransactions | src/utils/transactions.js:42-50 | a non-array gives []; otherwise the loop returns the in-order list of the kept normalised entries |
| Transactions.NormalizedListProperties | src/utils/transactions.js:42-50 | kept plus dropped equals the input length; nothing is dropped exactly when every entry is representable; each output is canonical and is the normalisation of some input |
| Transactions.NormalizedListAppend | src/utils/transactions.js:44-48 | the list normalisation distributes over concatenation, so order is kept |
| Transactions.NormalizedListIdempotent | src/utils/transactions.js:42-50 | normalising a normalised list returns it unchanged |
| Transactions.InRangeMeaning | src/utils/transactions.js:52-55 | with both bounds present the test holds exactly when start ≤ date ≤ end, and any invalid date fails; with a bound missing it always holds |
| Backup.PlainObjectIsObject | src/utils/backup.js:13 | a plain object is exactly an object value: no array, null or primitive qualifies |
| Backup.SanitizeLimits | src/utils/backup.js:21-24 | the loop keeps exactly the categories other than `__proto__` whose limit converts to a finite positive number, with that number |
| Backup.SanitizeBudgets | src/utils/backup.js:15-28 | the nested loops build exactly the sanitised budget map |
| Backup.SanitizedBudgetsMeaning | src/utils/backup.js:15-27 | a non-object gives {}; a month other than `__proto__` is kept exactly when its value is a plain object, even with no limits left; `__proto__` is never a key at either level, since assigning it creates no own property; every kept limit is > 0; every finite positive limit under a key other than `__proto__` is kept as its number |
| Backup.SanitizeBudgetsIdempotent | src/utils/backup.js:15-28 | sanitising a sanitised budget map changes nothing |
| Backup.BudgetsRoundTrip | src/utils/backup.js:15-28 | a month map with positive limits and no `__proto__` key, written as JSON values, sanitises back to itself |
| Backup.LimitsRoundTrip | src/utils/backup.js:21-24 | a positive limit map with no `__proto__` key, written as numbers, is cleaned back to itself |
| JsValues.AssignKey | src/utils/backup.js:23 | after `o[k] = v` on an ordinary object, `k` is an own key holding `v` unless it is `__proto__`, in which case the own properties are unchanged; every other key keeps its presence and its value |
| Backup.ProtoKeysDropped | src/utils/backup.js:15-27 | a month or a category keyed `__proto__` does not survive the sanitiser: `cleanCats[cat] = n` and `next[monthKey] = cleanCats` add no own key for it |
| Backup.StringOrNull | src/utils/backup.js:78 | a value is kept exactly when it is a string, and then unchanged |
| Backup.MigrateToV2Data | src/utils/backup.js:52-59 | migration succeeds exactly when the input is a truthy object and the chosen source (`data` when it is a plain object, else the top level) is a plain object |
| Backup.MigrateDefaults | src/utils/backup.js:56-70 | arrays and primitives fail and every other object migrates; each mistyped or missing field takes its default: [], {}, 'USD', [] or null |
| Backup.MigrateExported | src/utils/backup.js:52-71 | migrated data written back as an object migrates to itself, whether bare or wrapped with schemaVersion and exportedAt |
| Backup.ParseBackupText | src/utils/backup.js:73-106 | falsy or unparsable JSON gives 'Invalid JSON'; failed migration gives 'Unrecognized backup format'; otherwise the data holds the normalised transactions and sanitised budgets, one warning exactly when records were dropped, and a summary counting the returned transactions, budget months and presets |
| Backup.SchemaVersionDefault | src/utils/backup.js:77 | a missing or falsy schemaVersion reads as 1, and 2 reads as 2 |
| Backup.RestoredTransactionsBound | src/utils/backup.js:83-84 | restoring never yields more transactions than were read, so the dropped count is ≥ 0, and each restored one is canonical |
| App.SafeIso | src/App.jsx:31-34 | the ISO text of the parsed date, or of "now" when it is invalid; either way the text parses to a valid date whose ISO text is that same text |
| App.AppCategory | src/App.jsx:47 | null, undefined and '' become 'Other', a non-empty string is kept, and the result is never empty |
| App.AppRecordShape | src/App.jsx:39-51 | a record comes out exactly for a truthy value of type object (arrays included); the original id is kept, and an id is invented only when it is null or undefined; an invalid date becomes "now"; '' becomes 'Other'; the record has exactly the six app fields, with a non-null id, income/expense type and finite amount |
| App.SanitizeEntriesMeaning | src/App.jsx:38-53 | as many records come out as there are truthy object entries; each has the app record shape and is the image of some input entry |
| App.SanitizeTransactionsMeaning | src/App.jsx:36-54 | a non-array gives []; otherwise only falsy and non-object entries are dropped, and every output has the app record shape |
| App.SanitizersDiffer | src/App.jsx:43 | an object without an id is dropped by `normalizeTransaction` but kept here under an invented id |
| App.UnparseableDateDiffers | src/App.jsx:31-34 | an object with an unparseable date is dropped by `normalizeTransaction` but kept here dated "now" |
| App.SanitizeBudgets | src/App.jsx:56-69 | the loops build exactly the sanitised budget map, in which a `__proto__` month or category adds no own key |
| App.SanitizeBudgetsSameAsBackup | src/App.jsx:56-69 | the shell's budget sanitiser agrees with the backup one on every input |
| App.MonthRangeBounds | src/App.jsx:71-79 | start is midnight on the first of the month; end is one millisecond before the next month starts, or invalid when that instant is out of range |
| App.MonthRangeContains | src/App.jsx:71-79 | outside the years 0..99, the date lies within its month range |
| App.YearRangeBounds | src/App.jsx:81-91 | start is 1 January 00:00; end is one millisecond before the next year starts, or invalid when out of range |
| App.YearRangeContains | src/App.jsx:81-91 | outside the years -1..99, the date lies within its year range |
| App.NoPeriodOutsideModes | src/App.jsx:167-187 | the current and previous periods are null exactly when the mode is neither 'month' nor 'year' |
| App.PreviousMonthMeaning | src/App.jsx:173-178 | the corrected previous period in month mode is the whole calendar month before the view month |
| App.PreviousYearMeaning | src/App.jsx:180-184 | in year mode the previous period, as written, is the whole preceding calendar year |
| App.PreviousPeriodAgreesUpTo28th | src/App.jsx:174-177 | for view days up to the 28th, the code as written gives the intended previous month |
| App.PreviousMonthRollover | src/App.jsx:175-177 | on 31 March the code as written yields March again instead of February |
| App.SameValueZeroVsStrict | src/App.jsx:193-208 | Set membership used by bulk delete differs from `!==` only for NaN |
| App.Edited | src/App.jsx:195-196 | the length is kept; an entry whose id is not `===` the given id is unchanged; a matching entry becomes an object with exactly the fields of `updated` plus `id`, carrying the id it matched and `updated`'s other fields |
| App.Store.constructor | src/App.jsx:143-146 | the list starts as the loaded list |
| App.Store.Add | src/App.jsx:191 | the new record goes first and the old list follows unchanged |
| App.Store.Delete | src/App.jsx:193 | the list becomes the old list without the records with that id |
| App.Store.Edit | src/App.jsx:195-196 | length and order are kept; each matching record is replaced by the update under the original id, and the others are untouched |
| App.Store.Duplicate | src/App.jsx:198-203 | a falsy argument returns null and changes nothing; otherwise a copy under the fresh id is prepended and returned |
| App.Store.BulkDelete | src/App.jsx:205-209 | a non-array or empty id list changes nothing; otherwise the records whose id is in the list are removed |
| App.DeleteMeaning | src/App.jsx:193 | exactly the records with that id go, the list never grows, a missing id changes nothing, and deleting twice is deleting once |
| App.AddThenDelete | src/App.jsx:191-193 | deleting a just-added record by its (non-NaN) id removes it, and leaves the old list with that id deleted |
| App.EditKeepsIds | src/App.jsx:195-196 | every position is either unchanged or now carries the edited id, where the old record had that id |
| App.CloneDiffersOnlyInId | src/App.jsx:200 | the copy has the original's fields and the fresh id, and nothing else differs |
| App.BulkDeleteOfOne | src/App.jsx:205-209 | bulk deletion of a single non-NaN id is the same as deleting that id |
| App.BulkDeleteOfNaN | src/App.jsx:193-209 | delete by NaN removes nothing, but bulk delete of [NaN] removes records whose id is NaN |
| Ledger.SelectMeaning | src/components/Summary.jsx:2-8 | a filter keeps exactly the elements that pass, never grows the list, and is empty exactly when none pass |
| Ledger.SumPermutation | src/components/Summary.jsx:2-8 | a sum does not depend on the order of the list |
| Ledger.AccumulateMeaning | src/components/YearComparison.jsx:22-32 | the accumulated object has one key per distinct key of the input, in order of first appearance, each holding the fold of exactly the entries with that key |
| Ledger.AccumulateLoop | src/components/YearComparison.jsx:22-32 | the loop that writes into the accumulator computes exactly the accumulated object |
| Ledger.BucketsMeaning | src/components/LineChart.jsx:26-41 | every key present has a bucket whose income is the income sum and whose expenses are the sum of everything else with that key |
| Ledger.BucketsOrderIndependent | src/components/YearComparison.jsx:22-32 | the buckets do not depend on the order of the input |
| Ledger.TotalsMeaning | src/components/PieChart.jsx:20-23 | each key's running total is the sum of the amounts with that key; keys are in first-appearance order |
| YearComparison.BuildYearlyData | src/components/YearComparison.jsx:19-35 | one bucket per year of some transaction; income sums 'income' amounts, expenses sum every other type |
| YearComparison.YearlyDataOrderIndependent | src/components/YearComparison.jsx:22-32 | the yearly totals do not depend on the order of the transactions |
| YearComparison.Years | src/components/YearComparison.jsx:37 | the years are sorted in string order and are a permutation of the keys |
| YearComparison.YearsMeaning | src/components/YearComparison.jsx:37 | the listed years are exactly the years of some transaction |
| YearComparison.ComparisonsRows | src/components/YearComparison.jsx:39-47 | one row per year, in ascending order, with that year's income and expenses, and savings = income − expenses |
| YearComparison.ComparisonsChanges | src/components/YearComparison.jsx:41-50 | the first row has no changes; each later row compares with the row before it, giving percentage changes and the absolute savings change |
| YearComparison.PercentChangeMeaning | src/components/YearComparison.jsx:48-49 | a percentage change exists exactly when the previous value is positive, and is (cur − prev)/prev·100 |
| YearComparison.PreviousIsPrecedingPresentYear | src/components/YearComparison.jsx:39-41 | "previous" is the nearest earlier year present in the data, not calendar year − 1 |
| YearComparison.FourDigitYearOrder | src/components/YearComparison.jsx:37 | for four-digit years, string order of the keys is numeric order |
| LineChart.BuildMonthlyData | src/components/LineChart.jsx:26-41 | exactly the months with a transaction get a bucket; income sums 'income' amounts and expenses sum every other type |
| LineChart.MonthKeysSorted | src/components/LineChart.jsx:43 | the sorted months are in string order and are exactly the keys present |
| LineChart.ChartSeriesMeaning | src/components/LineChart.jsx:43-53 | the months and both series have equal length; index i of each series is the total of month i |
| LineChart.MonthKeyFormat | src/components/LineChart.jsx:27-28 | the key is `YYYY-MM`: seven characters, a dash, the year, and the 1-based month padded to two digits |
| LineChart.MonthKeyOrder | src/components/LineChart.jsx:43 | for four-digit years, string order of month keys is chronological |
| PieChart.BuildCategoryTotals | src/components/PieChart.jsx:18-23 | one total per category of an 'expense' transaction; the total sums exactly those amounts |
| PieChart.SliceColors | src/components/PieChart.jsx:6-33 | min(8, n) colours, taken in order from the palette |
| PieChart.PieLabels | src/components/PieChart.jsx:25 | the labels are distinct and are exactly the expense categories, in first-appearance order |
| PieChart.PieValues | src/components/PieChart.jsx:25-33 | values run parallel to the labels and each is its category's expense total; there are min(8, labels) colours |
| PieChart.NonExpenseIgnored | src/components/PieChart.jsx:18 | adding a transaction whose type is not exactly 'expense' changes nothing |
| PieChart.EmptyState | src/components/PieChart.jsx:18-77 | the empty view shows exactly when no transaction is an 'expense'; otherwise there is a slice |
| PieChart.PercentagesTotal | src/components/PieChart.jsx:66-69 | with a non-zero total the slice percentages add up to 100; with a zero total none is finite |
| PieChart.PercentageOf | src/components/PieChart.jsx:69 | the tooltip percentage is value/total·100, and not finite for a zero total |
| Summary.SummaryMeaning | src/components/Summary.jsx:2-10 | income sums 'income' amounts and expenses sum 'expense' amounts; balance is their difference; other types count in neither |
| Summary.SummaryEmpty | src/components/Summary.jsx:2-10 | an empty list gives zero income, expenses and balance |
| Summary.SummaryOfAdded | src/components/Summary.jsx:2-10 | adding an income raises income and balance by its amount; adding an expense raises expenses and lowers balance; any other type changes nothing |
| Summary.SummaryOrderIndependent | src/components/Summary.jsx:2-10 | the totals do not depend on the order of the transactions |
| BudgetManager.TargetMonth | src/components/BudgetManager.jsx:25-26 | the intended target is the month that lies `monthOffset` calendar months before today's |
| BudgetManager.TargetMonthSteps | src/components/BudgetManager.jsx:25-70 | offset 0 is this month, each further offset is the month before, and distinct offsets give distinct months |
| BudgetManager.TargetDateAgreesUpTo28th | src/components/BudgetManager.jsx:25-26 | up to the 28th, the code's `setMonth` target is the intended month |
| BudgetManager.TargetDateRollover | src/components/BudgetManager.jsx:25-26 | on 31 October with offset 1, the code shows October again instead of September |
| BudgetManager.BuildSpending | src/components/BudgetManager.jsx:33-47 | categories appear exactly when an 'expense' of the target month and year has them; each total sums those amounts |
| BudgetManager.SpendingIgnoresOthers | src/components/BudgetManager.jsx:35-42 | a transaction that is not an 'expense' in the target month changes no total |
| BudgetManager.Spent | src/components/BudgetManager.jsx:106 | a budgeted category without spending reads as 0 |
| BudgetManager.PctAtMost100 | src/components/BudgetManager.jsx:107 | the bar percentage never exceeds 100 and is never +∞ |
| BudgetManager.ColourOfSpend | src/components/BudgetManager.jsx:120-126 | for a positive limit the bar is red exactly when spent ≥ limit, yellow exactly when 80% ≤ spent < limit, and green below 80% |
| BudgetManager.Panel.constructor | src/components/BudgetManager.jsx:19-23 | starts at category 'Food', empty amount, offset 0 |
| BudgetManager.TargetDateMeaning | src/components/BudgetManager.jsx:25-26 | the `setMonth` date is today's day of the month `offset` months back when that month is long enough, otherwise that many days into the following month, always at today's time |
| BudgetManager.Panel.Target | src/components/BudgetManager.jsx:25-40 | the date the panel labels and filters by, as written: at today's time, in the intended month or the month after it, and up to the 28th in the intended month on today's day; see the second Findings row |
| BudgetManager.Panel.Previous | src/components/BudgetManager.jsx:69 | the offset grows by one; nothing else changes |
| BudgetManager.Panel.Next | src/components/BudgetManager.jsx:70 | the offset shrinks by one but never below 0; nothing else changes |
| BudgetManager.Panel.SetCategory | src/components/BudgetManager.jsx:79 | only the selected category changes; the panel invariant is kept |
| BudgetManager.Panel.SetAmount | src/components/BudgetManager.jsx:90 | only the amount text changes; the panel invariant is kept |
| BudgetManager.Panel.SetBudget | src/components/BudgetManager.jsx:49-56 | an empty amount changes nothing; otherwise only `budgets[category]` becomes `Number(amount)`, with no positivity check, and the amount is cleared; the panel invariant is kept |
| BudgetManager.FlatBudgetsRestoreEmpty | src/components/BudgetManager.jsx:51-54 | a flat category→number map, which the panel writes, sanitises to {} on restore |
| BudgetManager.SetBudgetLostOnRestore | src/components/BudgetManager.jsx:51-54 | a budget the panel sets never survives the restore sanitiser under its category |
| TransactionForm.TodayIsoText | src/components/TransactionForm.jsx:19-25 | today's text is the `YYYY-MM-DD` of the local year, 1-based month and day |
| TransactionForm.ParseIsoDateLocal | src/components/TransactionForm.jsx:27-39 | a date comes back only for a string of the exact `DDDD-DD-DD` shape, and it is a valid date at 12:00 |
| TransactionForm.ParseIsoDateLocalOf | src/components/TransactionForm.jsx:27-39 | `YYYY-MM-DD` for a real calendar date reads as that day at noon |
| TransactionForm.TodayIsoLocal | src/components/TransactionForm.jsx:19-39 | today's text reads back as today at noon on the recurring path |
| TransactionForm.TodayIsoUtc | src/components/TransactionForm.jsx:173 | today's text reads as today at midnight on the non-recurring path |
| TransactionForm.DateOnlyUtc | src/components/TransactionForm.jsx:173 | `new Date('YYYY-MM-DD')` is that day at 00:00 |
| TransactionForm.AddDaysMeaning | src/components/TransactionForm.jsx:67-71 | adding days moves the day number by exactly that many days and keeps the time of day |
| TransactionForm.MonthIndex | src/components/TransactionForm.jsx:61 | the double-remainder month index is the mathematical remainder mod 12 |
| TransactionForm.KeepDayMeaning | src/components/TransactionForm.jsx:55-65 | the month-end clamp lands on day min(day, length of the target month) of that month, at the same time of day, with the constructor's 0..99 year rule; it is Invalid Date when that month's last day is out of range |
| TransactionForm.OccurrenceCountLimits | src/components/TransactionForm.jsx:77 | a count that is NaN, 0 or missing gives 1, and a count ≥ 200 gives 200 |
| TransactionForm.OccurrenceCountOf | src/components/TransactionForm.jsx:77 | an integer count from 1 to 200 is taken as is |
| TransactionForm.ComputeOccurrences | src/components/TransactionForm.jsx:73-93 | the loop produces exactly the specified occurrence list |
| TransactionForm.OccurrencesMeaning | src/components/TransactionForm.jsx:73-93 | an invalid start gives []; otherwise there are n (1..200) occurrences, the first is the start, and each is computed from the start |
| TransactionForm.UnknownFrequencyRepeats | src/components/TransactionForm.jsx:81-88 | an unknown frequency repeats the start date |
| TransactionForm.OccurrenceSpacing | src/components/TransactionForm.jsx:85-87 | weekly is start + 7i days, biweekly start + 14i days, monthly `addMonthsKeepDay(start, i)` |
| TransactionForm.SafeNumber | src/components/TransactionForm.jsx:41-44 | `Number(v)` when finite, otherwise NaN |
| TransactionForm.ClampCentsMeaning | src/components/TransactionForm.jsx:95 | rounding to cents moves a value by at most half a cent, to whole cents, and is idempotent |
| TransactionForm.ClampCentsOfCents | src/components/TransactionForm.jsx:95 | whole cents are left as they are |
| TransactionForm.SplitCentsAddUp | src/components/TransactionForm.jsx:157-170 | when the split matches the total, the cent-rounded lines add up to the cent-rounded total |
| TransactionForm.PatchLines | src/components/TransactionForm.jsx:306-308 | only lines with the given id are patched; ids, length and all other lines are unchanged |
| TransactionForm.RemoveLineMeaning | src/components/TransactionForm.jsx:314-316 | exactly the lines with that id are removed, and a missing id changes nothing |
| TransactionForm.EnsureTwoLines | src/components/TransactionForm.jsx:318-328 | at least two lines result; existing lines are kept as a prefix, and new lines are empty with the type's default category |
| TransactionForm.TypeEffectMeaning | src/components/TransactionForm.jsx:136-146 | switching to income forces the category 'Income' and, in split mode, every line's category while keeping ids and amounts; switching to expense replaces 'Income' and keeps any other category; lines change only for income in split mode |
| TransactionForm.RecurringDefaults | src/components/TransactionForm.jsx:330-336 | afterwards the frequency is non-empty and the count positive; a set frequency and a positive count are kept |
| TransactionForm.ProjectedTotalMeaning | src/components/TransactionForm.jsx:185-191 | 0 for an invalid or non-positive amount, else whole cents within half a cent of amount × occurrences; split mode does not change it |
| TransactionForm.ErrorList | src/components/TransactionForm.jsx:193-219 | the list holds exactly the raised errors, in the source's check order, and is empty exactly when submission is allowed |
| TransactionForm.Errors | src/components/TransactionForm.jsx:193-219 | the pushes build exactly that error list |
| TransactionForm.CanSubmitMeaning | src/components/TransactionForm.jsx:193-235 | submitting is allowed only with a valid date, a non-blank description and a positive amount; in split mode there must be ≥ 2 valid lines matching the total, otherwise a category; a recurring entry needs a known frequency and a count in 1..200; at most 200 records |
| TransactionForm.RecurringCount | src/components/TransactionForm.jsx:172-178 | a recurring entry with an integer count k in 1..200 has k occurrences |
| TransactionForm.SharedOf | src/components/TransactionForm.jsx:263-265 | groupId is set exactly for a split submission with a non-empty group id; notes are either undefined or non-empty text |
| TransactionForm.TxObjectFields | src/components/TransactionForm.jsx:270-283 | each emitted object carries its id, ISO date, category, type, cent amount, notes, receipt, groupId and labelled description |
| TransactionForm.Emit | src/components/TransactionForm.jsx:286-301 | records are emitted occurrence by occurrence, line by line, until the first invalid date, where `toISOString` would throw |
| TransactionForm.SubmitCount | src/components/TransactionForm.jsx:258-301 | a successful submit emits exactly `totalTransactionsToCreate` records, at most 200 |
| TransactionForm.SubmitShared | src/components/TransactionForm.jsx:263-301 | every record of one submission shares the description, type, notes, receipt and one groupId, and has a valid date |
| TransactionForm.NonRecurringCompletes | src/components/TransactionForm.jsx:173-301 | a valid non-recurring submission completes with one record per line |
| TransactionForm.SplitRecordsAddUp | src/components/TransactionForm.jsx:292-300 | the split records of one occurrence add up to the submitted base amount |
| TransactionForm.Form.constructor | src/components/TransactionForm.jsx:100-126 | type and category come from storage with their defaults; one empty 'Other' line; split and recurring off; monthly × 3 |
| TransactionForm.Form.SetType | src/components/TransactionForm.jsx:136-146 | the type changes and the type effect is applied; every other field is unchanged |
| TransactionForm.Form.AddSplitLine | src/components/TransactionForm.jsx:310-312 | exactly one empty line with the type's default category is appended |
| TransactionForm.Form.RemoveSplitLine | src/components/TransactionForm.jsx:314-316 | only the lines with the id are removed |
| TransactionForm.Form.SetSplitLine | src/components/TransactionForm.jsx:306-308 | only the matching line is patched |
| TransactionForm.Form.EnableSplit | src/components/TransactionForm.jsx:318-328 | split is switched; enabling leaves at least two lines |
| TransactionForm.Form.EnableRecurring | src/components/TransactionForm.jsx:330-336 | recurring is switched; enabling fills in the defaults |
| TransactionForm.Form.Reset | src/components/TransactionForm.jsx:237-246 | date becomes today; description, amount, notes and receipt are cleared; the toggles are kept |
| TransactionForm.Form.Submit | src/components/TransactionForm.jsx:258-304 | emits the submission's records; resets after a completed submission and otherwise leaves the entry as it was |
| Privacy.DefaultsAllFalse | src/context/PrivacyPreferencesContext.jsx:12-17 | the defaults are exactly the four flags, all false |
| Privacy.LoadPrefs | src/context/PrivacyPreferencesContext.jsx:23-32 | missing, empty or corrupt storage gives the defaults; otherwise the stored fields overlay the defaults |
| Privacy.SetPrefs | src/context/PrivacyPreferencesContext.jsx:60-65 | the given fields are overwritten, hasChoice becomes true, and every other field is unchanged |
| Privacy.ConsentFlags | src/context/PrivacyPreferencesContext.jsx:75-76 | personalised ads are allowed exactly when ads and personalisation are both on, hence only with ads |
| Privacy.PrivacyPreferences.constructor | src/context/PrivacyPreferencesContext.jsx:22-32 | the preferences are loaded, and the modal is closed |
| Privacy.PrivacyPreferences.Open | src/context/PrivacyPreferencesContext.jsx:44 | opens without touching the preferences |
| Privacy.PrivacyPreferences.Close | src/context/PrivacyPreferencesContext.jsx:45 | closes without touching the preferences |
| Privacy.PrivacyPreferences.AcceptAll | src/context/PrivacyPreferencesContext.jsx:46-52 | the four flags all become true, so ads and personalised ads are allowed |
| Privacy.PrivacyPreferences.RejectAll | src/context/PrivacyPreferencesContext.jsx:53-59 | a choice is recorded with the other three flags false, so no ads are allowed |
| Privacy.PrivacyPreferences.Set | src/context/PrivacyPreferencesContext.jsx:60-65 | the preferences become the merge with hasChoice true |
| Privacy.StepMeaning | src/context/PrivacyPreferencesContext.jsx:44-65 | open and close leave the preferences alone; every other action records a choice |
| Privacy.HasChoiceMonotone | src/context/PrivacyPreferencesContext.jsx:46-65 | once a choice is recorded, no sequence of actions takes it back |
| Privacy.ToggleClick | src/components/PrivacyPreferencesModal.jsx:15 | a click calls `onChange` exactly when the row is enabled, and passes the negated value |
| Privacy.NecessaryFixed | src/components/PrivacyPreferencesModal.jsx:87-93 | the Necessary row is always checked and disabled, and clicking it changes nothing |
| Privacy.AdsToggle | src/components/PrivacyPreferencesModal.jsx:102-107 | turning ads off also clears personalisation; turning ads on keeps the previous personalisation value |
| Privacy.PersonalizedToggle | src/components/PrivacyPreferencesModal.jsx:109-115 | with ads off the personalisation row changes nothing; with ads on it flips |
| Privacy.ClickPreservesConsistent | src/components/PrivacyPreferencesModal.jsx:95-115 | every click keeps "personalisation only with ads" and changes no field outside the four flags |
| Privacy.Modal | src/components/PrivacyPreferencesModal.jsx:52-116 | nothing is rendered while closed; open, it shows four rows, with Necessary disabled and personalisation disabled exactly when ads are off |
| AdsSlot.EnsureAdSenseScript | src/components/AdsSlot.jsx:5-19 | an empty id or one containing the placeholder marker is refused; otherwise the result says whether the script was already present |
| AdsSlot.EffectPushesMeaning | src/components/AdsSlot.jsx:37-46 | an ad request is pushed exactly when a real ad is due and the client id is non-empty |
| AdsSlot.LabelOr | src/components/AdsSlot.jsx:52-72 | the slot's non-empty label, otherwise the fallback |
| AdsSlot.Render | src/components/AdsSlot.jsx:29-77 | exactly one body: the placeholder when placeholder mode is on and no real ad is due, the real ad when due, otherwise an empty box; `data-npa` exactly when personalisation is not allowed; the slot's height or 180; the not-chosen suffix exactly when no choice is recorded |
| AdsSlot.ShippedClientIsPlaceholder | src/config/adsConfig.js:9 | the shipped client id still contains the placeholder marker |
| AdsSlot.ShippedShowsPlaceholders | src/components/AdsSlot.jsx:34-35 | with the shipped configuration no real ad is due, the script is refused, and every slot shows the placeholder |
| StorageDiagnostics.CollectedMeaning | src/utils/storageDiagnostics.js:7-14 | every collected item has a non-empty key and twice its value's UTF-16 length in bytes, and every non-empty key is collected |
| StorageDiagnostics.AstralValueSize | src/utils/storageDiagnostics.js:12 | a value that is one character above U+FFFF counts four bytes, because it is two UTF-16 code units |
| JsText.Utf16Length | src/utils/storageDiagnostics.js:12 | JavaScript's `length` counts UTF-16 code units: between the number of characters and twice it, and equal to it when every character is in the Basic Multilingual Plane |
| JsText.Utf16LengthAppend | src/utils/storageDiagnostics.js:12 | UTF-16 lengths add up over concatenation |
| StorageDiagnostics.SortBySizeMeaning | src/utils/storageDiagnostics.js:19 | the sort is largest first and a permutation of its input |
| StorageDiagnostics.KeySizes | src/utils/storageDiagnostics.js:4-20 | [] when storage access throws; otherwise a largest-first permutation of the collected items |
| StorageDiagnostics.ApproxBytesTotal | src/utils/storageDiagnostics.js:22-25 | the total is the sum of the collected sizes, and 0 when storage throws |
| StorageDiagnostics.FormatBytes | src/utils/storageDiagnostics.js:27-38 | '0 B' exactly for non-finite or ≤ 0 input; otherwise n = v·1024^u with u ≤ 3 the largest unit not above n, and one decimal only for 1 ≤ v < 10 above bytes |
| StorageDiagnostics.ScaleDown | src/utils/storageDiagnostics.js:30-36 | the loop ends with v·1024^u = n, u ≤ 3, and either u = 3 or v < 1024 |
| Currency.RatesPositive | src/context/CurrencyContext.jsx:5-13 | every rate in the table is positive |
| Currency.InitialCurrency | src/context/CurrencyContext.jsx:16-19 | the saved code is used, or 'USD' when nothing (or '') is saved |
| Currency.FromRate | src/context/CurrencyContext.jsx:27 | the table rate for a known code and 1 for an unknown one, always positive |
| Currency.ConvertFromSelected | src/context/CurrencyContext.jsx:33-36 | converting from the selected currency returns the amount unchanged |
| Currency.ConvertFromDollars | src/context/CurrencyContext.jsx:33-36 | from dollars or an unknown code, the amount is scaled by the selected rate |
| Currency.ConvertRoundTrip | src/context/CurrencyContext.jsx:33-36 | converting between two table currencies and back gives the amount again |
| Currency.FormatAmount | src/context/CurrencyContext.jsx:25-31 | the text is the selected symbol followed by the locale rendering of `convertAmount` for the same arguments |

## Left out

- Local storage, `JSON.parse`/`JSON.stringify`, file reading, downloads and
  CSV export are I/O. The parsed JSON value, the stored strings, and whether
  reading storage throws are inputs. So are `buildBackupObject`,
  `applyBackupToStorage`, `downloadBackupObject`, the persistence effects and
  the settings screens.
- Clocks and id sources are parameters: `Date.now()`, `new Date()`,
  `Math.random`, `crypto.randomUUID` and `makeId`. So is the Google ads
  script queue.
- The local time zone is fixed to UTC. Under a non-UTC zone the local and
  UTC getters differ, which is not modelled.
- `Date.parse` accepts only the ECMAScript date-time string format
  (`YYYY`, `YYYY-MM`, `YYYY-MM-DD`, optionally followed by time and offset,
  plus ±YYYYYY years). Browsers' implementation-defined fallbacks for other
  text read as invalid here.
- Numbers are exact reals, not IEEE doubles. Float rounding in `+`, `/` and
  `*` is not modelled.
- JsValues.NumberToString: the plain decimal form is right only for
  magnitudes in [1e-6, 1e21) with at most 20 fractional digits. JavaScript
  writes other magnitudes with an exponent ("1e+21", "1e-7") and prints the
  shortest digits that read back as the same double. Neither is modelled,
  so a numeric category or key outside that range (through `String(x)`)
  gets different text here.
- `toLocaleString`, `toLocaleDateString` and `formatSafeDate` /
  `formatSafeDateTime` are locale formatting. They are abstract function
  parameters, or left out. `toFixed` is a parameter where its text is shown
  (`StorageDiagnostics.ByteText`). The exception is the entry form
  (TransactionForm.jsx:268 and :277): there `Number(x.toFixed(2))` is read as
  exact rounding to whole cents, halves up (`TransactionForm.BaseAmount` and
  the per-record amount). Binary floating-point effects on that rounding are
  not modelled. `Math.round` is modelled exactly (halves up) on reals.
- Chart.js datasets and options, JSX markup, styling, focus traps, keyboard
  listeners, `LazySection` and `AdBanner` are presentation or DOM. So is the
  AdSense script injection after `ensureAdSenseScript`'s early return.
- The trivial UI files are left out: the transaction list, consent banner,
  footer, terms, privacy policy, restore preview, settings, error boundary
  and currency selector.
- The linear-regression forecast, z-score anomaly flags and end-of-month
  budget projection appear in no source file. They are not modelled.
- `Ledger.Amount`: the totals read `t.amount` as its value when it is a
  finite number and as 0 otherwise. In JavaScript, `+=` with a string amount
  concatenates and a NaN amount poisons the sum. The weakening below follows
  from this.
- YearComparison.BuildYearlyData: totals assume numeric amounts; a string or NaN amount counts as 0 instead of concatenating or poisoning the total.
- LineChart.BuildMonthlyData: totals assume numeric amounts; a string or NaN amount counts as 0.
- PieChart.BuildCategoryTotals: totals assume numeric amounts; a string or NaN amount counts as 0.
- PieChart.BuildCategoryTotals: categories are map keys with no inherited members. In the source `acc` is an ordinary object, so for a category named after an `Object.prototype` member ("constructor", "toString", "valueOf", "hasOwnProperty", "isPrototypeOf", "propertyIsEnumerable", "toLocaleString", "__defineGetter__" and the like) `acc[cat] || 0` reads the inherited function and the total becomes a string; for "__proto__" the assignment creates no key and the category vanishes. Neither is modelled. The same holds for PieChart.PieLabels and PieChart.PieValues.
- PieChart.PieLabels: a category named "__proto__" is a label here but not in the source (see PieChart.BuildCategoryTotals).
- PieChart.PieValues: the total of a category named after an `Object.prototype` member is its sum here, where the source has a string (see PieChart.BuildCategoryTotals).
- Summary.SummaryMeaning: totals assume numeric amounts; a string or NaN amount counts as 0.
- BudgetManager.BuildSpending: totals assume numeric amounts; a string or NaN amount counts as 0.
- BudgetManager.BuildSpending: categories are map keys with no inherited members. In the source (BudgetManager.jsx:44) a category named after an `Object.prototype` member ("constructor", "toString", "valueOf", "hasOwnProperty" and the like) gets a string total, and "__proto__" gets no key at all. Neither is modelled.
- BudgetManager.Spent: a budgeted category named after an `Object.prototype` member reads as 0 here. In the source `spending[cat] || 0` (BudgetManager.jsx:106) returns the inherited function, and the bar shows NaN.
- PieChart.PieLabels: keys follow first-insertion order. JavaScript's `Object.keys` lists integer-like keys (such as a category named "2024") first, in ascending numeric order. Year and month keys are sorted afterwards, so only the pie labels are affected.
- App.Store.BulkDelete: id comparison uses value equality, so two distinct objects with equal contents count as the same id. JavaScript compares objects by reference. The same holds for App.Store.Delete and App.Store.Edit.
- App.Store.Delete: list entries are assumed not to be null or undefined. The list comes from a raw `JSON.parse` of storage (App.jsx:143-146), and for a stored `null` entry, `t.id` in delete, edit and bulk delete (App.jsx:193-208) throws a TypeError. The model reads the id as `undefined` and goes on. The same holds for App.Store.Edit and App.Store.BulkDelete, and for the `t.type`, `t.date` and `t.amount` reads of the ledger folds (Summary, YearComparison, LineChart, PieChart, BuildSpending).
- App.MonthRangeContains: stated only outside the years 0..99. There, `new Date(y, m, 1)` reads the year as 1900 + y, so the range does not contain the date.
- App.YearRangeContains: stated only outside the years -1..99, for the same reason.
- App.PreviousMonthMeaning: stated only outside the years 0..100, for the same reason, and when the first of the previous month is within the time range.
- Currency.FormatAmount: the digits come from a `toLocaleString` parameter, not from the en-US two-decimal rendering.
- Currency.ConvertFromSelected: like FormatAmount, ConvertFromDollars and ConvertRoundTrip, it requires the selected code to be in the rate table. With any other stored code, which a restored backup can write, `CURRENCIES[currency].rate` throws a TypeError in the source; that throw is not modelled.
- StorageDiagnostics.FormatBytes: takes a JavaScript number, on which `Number` is the identity. The final text, made by `toFixed`, is `StorageDiagnostics.ByteText` with `toFixed` as a parameter.
- JsText.LexLe: the default sort compares UTF-16 code units, while this order compares Unicode characters. The two differ only when a character above U+FFFF meets one in U+E000..U+FFFF; year and month keys are ASCII digits.
- JsValues.Spread: a string spreads into one entry per character, where JavaScript makes one per UTF-16 code unit. String `length` (`JsValues.Get`) and the storage sizes do count code units (`JsText.Utf16Length`).
- TransactionForm.Emit: the receipt metadata comes from a file picker and is an input value, and a submission stops where `toISOString` would throw.
- Open/close and the modal's Escape key and backdrop only toggle `isOpen`. The Save button calls `close` only.

## Findings

| source | as written | input that shows it | evidently intended | confidence | as-written member | corrected member |
|---|---|---|---|---|---|---|
| src/App.jsx:175-177 | the previous month is `setMonth(getMonth() - 1)` on the view date itself, keeping its day | view date 31 March 2025: `setMonth(1)` gives 31 February, which normalises to 3 March, so the "previous" period is March again | the whole calendar month before the view month | high; not executed | App.PreviousMonthRollover | App.PreviousMonthMeaning |
| src/components/BudgetManager.jsx:25-26 | the budget month is `setMonth(getMonth() - monthOffset)` on today's date, keeping the day | today 31 October 2025 and offset 1: `setMonth(8)` gives 31 September, which normalises to 1 October, so "Previous" shows October again | the month `monthOffset` calendar months before the current one | high; not executed | BudgetManager.TargetDateRollover | BudgetManager.TargetMonthSteps |
