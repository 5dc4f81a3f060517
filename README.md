# Personal finance dashboard: the ledger computations, verified

This project models the data computations of a React personal-finance
dashboard and proves what they compute. Each computation works on a list of
transaction records, each with:

- an amount;
- a credit/debit flag (`increment`);
- the balance after the transaction;
- a description;
- a payment mode;
- an ISO date;
- an id and a user id.

The screen state these computations read becomes explicit parameters:

- the picked dates;
- the sort option;
- the chart's view;
- the chosen currency and the exchange-rate table;
- the current instant ("now").

The modules follow the components:

- `Transactions` (`transactions.dfy`): the ledger table.
  - The date-window filter behind the Filter button: the first ten records
    in list order, or every record inside a day-normalised inclusive window.
  - The frequency table.
  - The three sort orders. The descending stable sort runs as an insertion
    sort, in place, on a copy of the filtered records.
- `TransactionsExport` (`transactions_export.dfy`): the export.
  - The record transform.
  - The CSV text. It is a loose form of RFC 4180 section 2: lines are
    separated by "\n", and a double quote inside a field is not doubled.
  - The column/row table handed to the PDF writer.
  - A reader for CSV data lines, used to state what a line says.
- `Dashboard` (`dashboard.dfy`): the dashboard screen.
  - The currency conversion.
  - The spending limit: debits bucketed by "YYYY-MM" month, the month keys
    sorted, and the cumulative mean of the buckets, converted into the
    chosen currency.
- `IncomeExpenseGraph` (`income_expense_graph.dfy`): the line-chart series for
  the monthly, yearly, custom and all-time views.
- `IncomePieChart` (`income_pie_chart.dfy`): the income breakdown.
  - The credits of the period.
  - Grouping by description.
  - Totals, percentages and the eight-colour palette.
- Shared modules:
  - `Ledger`: records, calendar instants and their order.
  - `Seqs`: `slice`, `filter`, the subsequence relation.
  - `Grouping`: a plain object used as a dictionary from text keys to sums,
    with its keys in insertion order. Keys that a JavaScript object inherits
    from `Object.prototype` are not modelled; see "Left out".
  - `Strings`: JavaScript string order, the default `sort()`, and month keys.

Amounts are mathematical reals. A date is modelled twice:

- its ISO text, which the source slices;
- the instant `new Date(date)` denotes, as local calendar fields with the
  month counted from 0 as `getMonth()` does.

`Stamp` maps an instant to an integer that orders instants as `getTime()`
does. `StampIsCalendarOrder` proves that this order is the calendar order.

Where the source computes NaN, the model returns `None`. This covers two
cases:

- a currency without a rate;
- a pie-chart share of a zero total.

## Model

| member | source | states |
|---|---|---|
| Ledger.StampIsCalendarOrder | src/components/Transactions.jsx:34-35 | comparing two dates as `Date` values is comparing year, then month, then day, then time of day |
| Ledger.StampInDay | src/components/Transactions.jsx:28-31 | the time value of an instant lies in its day's slot, from 00:00:00.000 to 23:59:59.999 |
| Ledger.StartOfDay | src/components/Transactions.jsx:29 | `setHours(0, 0, 0, 0)` keeps a valid instant's calendar day, and the result is at or before the instant exactly when the instant's time of day is not negative |
| Ledger.EndOfDay | src/components/Transactions.jsx:31 | `setHours(23, 59, 59, 999)` keeps a valid instant's calendar day, and the result is at or after the instant exactly when the instant's time of day is under 24 hours |
| Ledger.MonthStart | src/components/IncomeExpenseGraph.jsx:35-40 | `new Date(year, monthIndex, 1)` is a valid midnight on day 1 of month number year × 12 + monthIndex, so an out-of-range index rolls into the neighbouring year |
| Ledger.SameDaySlot | src/components/Transactions.jsx:28-31 | two instants in the same day slot are on the same calendar day |
| Seqs.FilterIsSubsequence | src/components/Transactions.jsx:33-36 | `filter` keeps an order-preserving subsequence of its input |
| Seqs.FilterKeepsExactly | src/components/Transactions.jsx:33-36 | `filter` keeps only passing elements, and each passing element as often as the input holds it |
| Seqs.FilterIdempotent | src/components/Transactions.jsx:33-36 | filtering twice with the same test is filtering once |
| Seqs.FilterFilter | src/components/IncomePieChart.jsx:20-27 | two filters in a row keep exactly what passes both tests |
| Transactions.FilterTransactions | src/components/Transactions.jsx:21-39 | the shown records are never more than the ledger and are an order-preserving subsequence of it |
| Transactions.RecentWhenUnbounded | src/components/Transactions.jsx:21-26 | with a date missing, the table shows the first min(10, n) records in their order |
| Transactions.WindowKeepsCalendarDays | src/components/Transactions.jsx:28-36 | with both dates, a record is kept exactly when its calendar day lies between the two picked days, whatever their times of day; each kept record is kept as often as it occurs, in order |
| Transactions.DayWindowIsDays | src/components/Transactions.jsx:28-35 | the window from 00:00:00.000 of the start day to 23:59:59.999 of the end day holds an instant exactly when its day lies between the two days |
| Transactions.InvertedWindowIsEmpty | src/components/Transactions.jsx:28-36 | a start day after the end day keeps nothing |
| Transactions.FilterTransactionsIdempotent | src/components/Transactions.jsx:33-36 | filtering the filtered table again with the same dates changes nothing |
| Transactions.FrequencyTable | src/components/Transactions.jsx:58-61 | the table's keys are exactly the descriptions that occur in the whole ledger |
| Transactions.BuildFrequencyMap | src/components/Transactions.jsx:58-61 | the `forEach` over all transactions builds the table of every description's count |
| Transactions.SortKey | src/components/Transactions.jsx:55-65 | the amount order's key is the amount; the description order's key is never negative, and is 0 exactly when the description has no count in the table |
| Transactions.StableSort | src/components/Transactions.jsx:54-66 | the sorted table has the filtered table's length; its order and contents are stated by StableSortPermutes, StableSortOrders and StableSortKeepsTies |
| Transactions.DescriptionKeyIsFrequency | src/components/Transactions.jsx:62 | the description comparator's key is the description's count over the whole ledger |
| Transactions.StableSortPermutes | src/components/Transactions.jsx:52-67 | the sorted table is a permutation of the filtered one |
| Transactions.StableSortOrders | src/components/Transactions.jsx:54-65 | under every option, the sort keys (amount, frequency or time) never increase along the sorted table |
| Transactions.StableSortKeepsTies | src/components/Transactions.jsx:54-65 | records with equal keys keep their relative input order (the sort is stable) |
| Transactions.DescriptionSortOrdersByFrequency | src/components/Transactions.jsx:56-62 | sorting by description orders by frequency over the full ledger, most frequent first |
| Transactions.KeyIgnoresTable | src/components/Transactions.jsx:54-55 | the amount and date orders do not depend on the frequency table |
| Transactions.InsertInPlace | src/components/Transactions.jsx:55 | one step of the in-place sort moves a record left past those with a smaller key, leaving the rest of the array alone |
| Transactions.SortInPlace | src/components/Transactions.jsx:54-66 | the in-place sort leaves the array holding the stable descending sort of its old contents |
| Transactions.SortTransactions | src/components/Transactions.jsx:51-68 | the result is a new array, a sorted copy of the filtered records, with frequencies taken over all transactions |
| TransactionsExport.ExportRow | src/components/Transactions.jsx:72-83 | the amount cell starts with "+" for a credit and "-" for a debit; the date is a prefix of the ISO date, at most ten characters long; description and mode pass through |
| TransactionsExport.TransformForExport | src/components/Transactions.jsx:71-85 | the transform returns one record per record |
| TransactionsExport.ExportRowDecodes | src/components/Transactions.jsx:72-83 | each exported record says which of these hold: the amount cell is "+" or "-" by `increment`, then the amount, a space and the code; the balance cell is the balance, a space and the code; the date is the first ten characters of the ISO date; description and mode pass through |
| TransactionsExport.ColumnsText | src/components/Transactions.jsx:121 | the columns are AMOUNT, CURRENTBALANCE, DESCRIPTION, MODE, DATE |
| TransactionsExport.HeaderText | src/components/Transactions.jsx:90-92 | the CSV header is those five names separated by commas |
| TransactionsExport.ConvertToCSV | src/components/Transactions.jsx:86-99 | the CSV text is empty exactly when there are no records; otherwise it starts with the header line and a line break |
| TransactionsExport.CsvOfNothing | src/components/Transactions.jsx:87 | no records give empty CSV text |
| TransactionsExport.ExportTable | src/components/Transactions.jsx:118-122 | the PDF table's columns are the keys in capitals; it has one row per record, and row k is the values of record k's exported form, in key order |
| TransactionsExport.CsvLinesUnbroken | src/components/Transactions.jsx:90-97 | when no field holds a line break, neither does the header line nor any data line |
| TransactionsExport.SplitJoin | src/components/Transactions.jsx:98 | splitting a `join` at its separator gives the parts back when no part holds the separator |
| TransactionsExport.CsvMatchesTable | src/components/Transactions.jsx:86-99 | when no field holds a line break, the CSV text of n records splits into n + 1 lines: the header (the table's columns joined by commas), then for each record k the quoted, comma-joined values of its exported form, which are the PDF table's row k |
| TransactionsExport.CsvLineCount | src/components/Transactions.jsx:86-99 | for n > 0 records the CSV text splits into exactly n + 1 lines if and only if no exported value holds a line break; when one does, it splits into more, since line breaks are written unescaped |
| TransactionsExport.ParseQuotedCells | src/components/Transactions.jsx:95-96 | a line of quoted, comma-separated cells without quotes inside reads back as those cells |
| TransactionsExport.CsvRowReadsBack | src/components/Transactions.jsx:93-97 | a data line reads back as the record's five values, when no value holds a double quote |
| TransactionsExport.ParsedCellsHaveNoQuote | src/components/Transactions.jsx:95 | no cell read from a line holds a double quote |
| TransactionsExport.QuoteInValueIsMisread | src/components/Transactions.jsx:95 | a data line reads back as the record's five values exactly when none of them holds a double quote; otherwise it reads as something else, because the quote is not doubled |
| TransactionsExport.CsvLineSaysRecord | src/components/Transactions.jsx:71-98 | with no line break and no double quote in the fields, CSV line k + 1 reads as five cells giving record k's credit/debit flag and amount, its balance, its description, its mode and the first ten characters of its date |
| Dashboard.ConvertCurrency | src/components/DashboardScreen.jsx:22-35 | without rates or in INR the ledger is unchanged; the result is `None` exactly when the rate is missing; otherwise it has the same length, amount and balance are multiplied by the "INR"+code rate, and every other field is unchanged |
| Dashboard.ScaleByOne | src/components/DashboardScreen.jsx:29-33 | converting at rate 1 changes nothing |
| Dashboard.ScaleRoundTrip | src/components/DashboardScreen.jsx:29-33 | converting at a rate and back at its inverse gives the ledger back |
| Dashboard.AddExpense | src/components/DashboardScreen.jsx:48-52 | a debit adds its amount to its month's bucket, starting a new month at 0 and appending it to the keys; a credit changes nothing |
| Dashboard.BucketExpenses | src/components/DashboardScreen.jsx:45-53 | the first loop builds the dictionary of the debit entries and its keys in insertion order |
| Dashboard.ExpenseSum | src/components/DashboardScreen.jsx:47-53 | the filed entries add up to the total of all debits |
| Dashboard.ExpenseKeySum | src/components/DashboardScreen.jsx:50-51 | the entries filed under a month add up to that month's debits |
| Dashboard.ExpenseMonths | src/components/DashboardScreen.jsx:48-51 | a month is a bucket exactly when some debit's date starts with it |
| Dashboard.BucketsAreDebitMonths | src/components/DashboardScreen.jsx:47-57 | there is one bucket per month with debits, holding that month's debit sum; the keys are distinct and are the debit months; the buckets add up to all debits |
| Dashboard.MovingAverage | src/components/DashboardScreen.jsx:58-66 | after the loop, `movingAverage` is the sum of the buckets over the sorted months divided by their number, or 0 when there are none |
| Dashboard.SortedBucketsAverage | src/components/DashboardScreen.jsx:57-66 | every sorted key is a bucket, and the mean over the sorted keys is total debits divided by the number of debit months |
| Dashboard.SortedMonthsAreChronological | src/components/DashboardScreen.jsx:57 | with "YYYY-MM" keys, the sorted keys are strictly increasing in (year, month) |
| Dashboard.MonthlyAverage | src/components/DashboardScreen.jsx:45-66 | both loops together compute the average monthly expense |
| Dashboard.SpendingLimit | src/components/DashboardScreen.jsx:39-75 | a missing or empty ledger gives 0; otherwise the limit is the average monthly expense, multiplied by the "INR"+code rate outside INR, and `None` when that rate is missing |
| Dashboard.CreditsOnlyGiveZero | src/components/DashboardScreen.jsx:48 | a ledger of credits only has no debit months and a limit of 0 |
| Dashboard.ScaledDebitTotal | src/components/DashboardScreen.jsx:31 | converting the ledger multiplies the debit total by the rate |
| Dashboard.LimitFollowsConversion | src/components/DashboardScreen.jsx:69-74 | converting the limit at a rate is computing the limit of the ledger converted at that rate |
| Dashboard.LimitMatchesConvertedLedger | src/components/DashboardScreen.jsx:28-33 | the limit shown in a currency is the limit of the converted ledger shown beside it |
| Strings.StrLessTotal | src/components/DashboardScreen.jsx:57 | JavaScript string order orders any two different strings |
| Strings.StrLessTransitive | src/components/DashboardScreen.jsx:57 | JavaScript string order is transitive |
| Strings.SortStringsIsSorted | src/components/DashboardScreen.jsx:57 | the default `sort()` returns its input rearranged into ascending order |
| Strings.SortStrings | src/components/DashboardScreen.jsx:57 | the sorted keys are as many as the keys; SortStringsIsSorted states their order and contents |
| Strings.SortDistinctStrings | src/components/DashboardScreen.jsx:57 | sorting distinct keys gives strictly ascending distinct keys |
| Strings.DigitsOrder | src/components/DashboardScreen.jsx:57 | digit strings of equal width compare as text as the numbers they spell |
| Strings.MonthKeyOrder | src/components/DashboardScreen.jsx:57 | "YYYY-MM" keys compare as text exactly in calendar order |
| Grouping.TotalsAreKeySums | src/components/DashboardScreen.jsx:50-51 | the dictionary holds exactly the keys met, each with the sum of its values |
| Grouping.OrderIsKeys | src/components/IncomePieChart.jsx:42 | the insertion-ordered keys are distinct, are the dictionary's keys, and are no more than the entries |
| Grouping.OrderIsFirstOccurrence | src/components/IncomePieChart.jsx:35-37 | keys are listed in the order of their first entries |
| Grouping.SumOverOrder | src/components/IncomePieChart.jsx:38-39 | the dictionary's values over its keys add up to all values filed |
| Grouping.SumOverPermutation | src/components/DashboardScreen.jsx:57-60 | summing the buckets does not depend on the order of the keys |
| IncomeExpenseGraph.FilterData | src/components/IncomeExpenseGraph.jsx:28-56 | a non-array or empty input gives no points, and there are never more points than records |
| IncomeExpenseGraph.GraphWindow | src/components/IncomeExpenseGraph.jsx:33-49 | the all-time view, and a custom view missing a date, keep every record; WindowIsView states each view's test |
| IncomeExpenseGraph.ToPoint | src/components/IncomeExpenseGraph.jsx:51-55 | a point has the record's date; Income is the amount of a credit and Expense the amount of a debit; one of them is 0 and together they are the amount |
| IncomeExpenseGraph.JanuaryReachesBackToDecember | src/components/IncomeExpenseGraph.jsx:35 | in January the monthly view starts on 1 December of the previous year |
| IncomeExpenseGraph.WindowIsView | src/components/IncomeExpenseGraph.jsx:34-49 | monthly keeps a record exactly when its month is at or after the previous month; yearly when its year is at or after the previous year; custom when its date lies between the two picked dates, with no normalisation; otherwise everything |
| IncomeExpenseGraph.GraphSeries | src/components/IncomeExpenseGraph.jsx:31-55 | the kept records are an order-preserving subsequence holding exactly the records of the view; there is one point per kept record, in order; each point has that record's date, Income is the amount of a credit and Expense the amount of a debit, one of them is 0 and together they are the amount |
| IncomeExpenseGraph.UnboundedViewsKeepAll | src/components/IncomeExpenseGraph.jsx:44-49 | all-time, or custom with a date missing, keeps every record |
| IncomePieChart.FilterTransactions | src/components/IncomePieChart.jsx:19-29 | the filter never returns more records than it is given |
| IncomePieChart.PieWindow | src/components/IncomePieChart.jsx:21-27 | the all-time view, and a custom view missing a date, keep every record; WindowIsView states each view's test |
| IncomePieChart.AfterStartOfDay | src/components/IncomePieChart.jsx:26 | strictly after the start of a day means on that day or later, but not its first instant |
| IncomePieChart.BeforeEndOfDay | src/components/IncomePieChart.jsx:26 | strictly before the end of a day means on that day or earlier, but not its last instant |
| IncomePieChart.WindowIsView | src/components/IncomePieChart.jsx:21-27 | monthly keeps a record of now's month and year; yearly, of now's year; custom, of a day in the range other than its first and last instants; otherwise everything |
| IncomePieChart.CreditInPeriod | src/components/IncomePieChart.jsx:20-27 | both filters together keep a record exactly when it is a credit of the period |
| IncomePieChart.FilterKeepsCreditsInPeriod | src/components/IncomePieChart.jsx:19-29 | the filter keeps, in order and as often as they occur, exactly the credits of the period |
| IncomePieChart.FileIncome | src/components/IncomePieChart.jsx:34-40 | the `forEach` builds the dictionary of the descriptions' sums, its keys in insertion order, and the sum of all amounts |
| IncomePieChart.GetChartData | src/components/IncomePieChart.jsx:31-50 | the total is the sum of the filtered amounts, and the slices are the chart data: one per dictionary key, in key order, with value, share and colour |
| IncomePieChart.IncomeTotal | src/components/IncomePieChart.jsx:39 | `totalIncome` is the sum of the filtered amounts |
| IncomePieChart.ChartSlicesAt | src/components/IncomePieChart.jsx:42-47 | slice i is the i-th key, its dictionary value and that value's share of the total |
| IncomePieChart.SlicesAreGroups | src/components/IncomePieChart.jsx:34-47 | there is one slice per distinct description of the credits, none twice, and no more slices than credits |
| IncomePieChart.SliceValues | src/components/IncomePieChart.jsx:34-38 | each slice's value is the sum of its description's amounts |
| IncomePieChart.SlicesInFirstOccurrenceOrder | src/components/IncomePieChart.jsx:35-42 | slices come in the order their descriptions first occur |
| IncomePieChart.SlicesAddUpToTotal | src/components/IncomePieChart.jsx:39-44 | the slice values add up to the total income |
| IncomePieChart.SharesAddUpToHundred | src/components/IncomePieChart.jsx:45 | with a non-zero total the percentages, before rounding, add up to 100 |
| IncomePieChart.Percentage | src/components/IncomePieChart.jsx:45 | a share is undefined exactly when the total is 0; otherwise share × total equals value × 100 |
| IncomePieChart.SharesAreProportional | src/components/IncomePieChart.jsx:45 | with a non-zero total each percentage is value / total × 100; with a zero total none is defined |
| IncomePieChart.ColorsDistinct | src/components/IncomePieChart.jsx:7 | the eight palette colours are all different |
| IncomePieChart.SliceColors | src/components/IncomePieChart.jsx:46 | slice i has colour `COLORS[i % 8]`, and two slices share a colour exactly when their positions are equal modulo 8 |

## Left out

- React machinery is not modelled: state and effects, memoisation, rendering, the date pickers, the select widgets and the charts. The state these read becomes parameters.
- The CSV download (Blob, URL, anchor click) and the PDF writer (`jsPDF`, `autoTable`, `save`) are browser I/O and foreign library calls. The model stops at the text and the table handed to them.
- `console.log`, the `CURRENCIES` lookup (symbol and code for display), `useUserData` and the other components are not part of this model.
- Floating point: amounts are reals. JavaScript's rounding, overflow and NaN propagation are not modelled.
- `parseFloat` is not modelled. Amounts are already numbers.
- Number-to-text conversion in the export is a parameter `show`.
- Dates are instants with calendar fields. Two things are outside the model:
  - parsing the ISO text into that instant (`new Date(date)`);
  - time zones and daylight-saving time.
- Lemmas about windows assume valid calendar fields (`ValidInstant`).
- date-fns `format` and dayjs `isSame`, `startOf` and `endOf` are modelled by their meaning on calendar fields, not by the libraries.
- IncomeExpenseGraph.FilterData: a point carries the record's instant, not the "MMM d, yyyy" text `format` makes of it.
- Dashboard.ConvertCurrency: amounts and balances are not rounded with `toFixed(2)` and stay numbers, where the source stores two-decimal text.
- Dashboard.SpendingLimit: the limit is not rounded with `toFixed(2)` into text.
- Dashboard.ConvertCurrency: a missing rate gives `None`, where the source fills every amount with NaN.
- IncomePieChart.Percentage: the share is not rounded with `toFixed(2)` and carries no "%". A zero total gives `None`, where the source divides by zero.
- IncomePieChart.SlicesInFirstOccurrenceOrder holds for the model's dictionary, which lists keys in insertion order. JavaScript's `Object.keys` lists integer-like keys ("12", "7") first, in numeric order, so for such descriptions the source's order differs.
- IncomePieChart.FileIncome: the source resets a description to 0 whenever its running sum is falsy, not only when it is new. Without NaN this gives the same result, since the sum is then already 0; the model writes the new-key test.
- Transactions.SortKey: a description missing from the frequency table counts 0, where the source's comparator gets NaN. This cannot happen when the filtered records come from the ledger.
- Transactions.SortTransactions: an option other than "amount" or "description" sorts by date, as the source's final branch does. The option is a three-valued datatype.
- The sort is specified by an insertion sort; only its result is compared with JavaScript's `Array.prototype.sort`. Stable descending order fixes that result uniquely.
- TransactionsExport.ExportRow: the key order of a transformed record (amount, currentbalance, description, mode, date) assumes the stored records list their keys as amount, increment, currentbalance, description, mode, date, id, user_id. Other extra fields are not modelled.
- TransactionsExport.ExportTable requires a non-empty export: the source reads the first transformed record's keys without checking that there is one.
- TransactionsExport.UpperChar upper-cases ASCII letters only, which is all the keys hold.
- Keys inherited from `Object.prototype` are not modelled; the dictionaries are plain maps. In the source:
  - `constructor`, `toString` and the like already hold a function, so for those descriptions `frequencyMap[d] || 0` is a function, and `+ 1` makes a string.
  - Assigning to `__proto__` is ignored, so that key never shows in `Object.keys`.
- Transactions.BuildFrequencyMap: the counts are right only for descriptions that are not names inherited from `Object.prototype`. For `constructor` the source stores text, and the description comparator then gets NaN.
- IncomePieChart.FileIncome: for a description inherited from `Object.prototype`, the source never resets the sum (the inherited function is truthy), and `+=` joins text. A `__proto__` description is dropped from the keys. The contract, and SlicesAddUpToTotal and SharesAddUpToHundred after it, hold only when no description is such a name.
- Grouping.Totals: a map from any text key. A JavaScript object's inherited keys, `__proto__` among them, do not behave as fresh keys; the all-keys lemmas hold only for other keys.
- Strings.StrLess compares Unicode scalar values. JavaScript compares UTF-16 code units, which differs only for characters outside the Basic Multilingual Plane.
