# Transaction analysis, modelled in Dafny

This project models the analysis core of a small personal-finance tool. The
tool reads a bank's spreadsheet of card operations and answers questions about
them. The model covers two source files:

- `src/utils.py`:
  - the time-of-day greeting;
  - the "this month up to now" filter;
  - the 1 % cashback;
  - per-card spending and cashback totals;
  - the five largest payments.
- `src/reports.py`:
  - the spending of one category over the last three calendar months;
  - the mean spending per day of the week over the same window.

Records are the rows of that spreadsheet (`Records.Record`):

- Money is kept as integer kopecks.
- The operation date is a cell that holds text, a missing value, a converted
  timestamp, or NaT.
- Optional columns are `Option`s. The payment column and the rounded-amount
  column tell "absent from the record" apart from NaN.

Timestamps (`DateTimes`) follow Python's `datetime`:

- a proleptic Gregorian validity predicate, years 1 to 9999;
- field-by-field ordering;
- the fixed formats `%d.%m.%Y %H:%M:%S` and `%d.%m.%Y`, with parse/format
  round trips proved;
- `replace(day=1)`, which keeps the clock time;
- `pd.DateOffset(months=n)`, which clamps the day to the target month;
- the weekday, Monday = 0.

Modules:

| module | file |
|---|---|
| `Wrappers` | `wrappers.dfy` |
| `Seqs` | `seqs.dfy` |
| `DateTimes` | `datetimes.dfy` |
| `Records` | `records.dfy` |
| `Greeting` | `greeting.dfy` |
| `MonthFilter` | `month_filter.dfy` |
| `Cashback` | `cashback.dfy` |
| `CardTotals` | `card_totals.dfy` |
| `TopFive` | `top_five.dfy` |
| `Reports` | `reports.dfy` |

`Seqs` holds `Filter`, an order-preserving selection that is the shape of every
`for … if … append` loop and every pandas boolean mask here, with lemmas that
characterise it completely. Where the source works step by step, the model is a
method with loop invariants, proved against a specification function:

- `FilteringTransactionsByDate`;
- `TransactionAnalysis`, a dict plus its insertion order;
- `SpendingByWeekday`, which overwrites the caller's array of records and then
  folds per-weekday totals.

Where the source is a pure expression or a pandas pipeline on a fresh frame, the
model is a function.

## Model

| member | source | states |
|---|---|---|
| DateTimes.DaysInMonth | src/reports.py:19 | month lengths of the Gregorian calendar: 28..31, and 29 exactly for February of a leap year |
| DateTimes.Valid | src/utils.py:12 | the values the `datetime` constructor accepts: a Gregorian date in years 1..9999 and a clock time with seconds below 60 |
| DateTimes.AtOrBefore | src/utils.py:46 | `a <= b` on datetimes, field by field with the year first |
| DateTimes.AtOrBeforeIsTotalOrder | src/utils.py:46 | datetime comparison `<=` is reflexive, total, antisymmetric and transitive |
| DateTimes.NumberValue | src/utils.py:12 | the value of a decimal field is below 10^width |
| DateTimes.Padded | src/utils.py:12 | a zero-padded field has exactly the given width, only digits, and reads back as the number |
| DateTimes.PaddedNumberValue | src/utils.py:12 | re-padding the value of a digit field gives the same text |
| DateTimes.SplitOfJoined | src/utils.py:12 | three digit fields joined by a separator split back into the numbers they spell |
| DateTimes.JoinThenSplit | src/utils.py:12 | splitting the joined fields gives the fields back |
| DateTimes.SplitThenJoin | src/utils.py:12 | a string that splits is the join of its own fields |
| DateTimes.Assemble | src/utils.py:12 | only a datetime the constructor accepts is produced |
| DateTimes.ParseTimestamp | src/utils.py:12 | `strptime(s, "%d.%m.%Y %H:%M:%S")` yields only valid datetimes |
| DateTimes.ParseDate | src/reports.py:18 | `strptime(date, "%d.%m.%Y")` yields a valid datetime at 00:00:00 |
| DateTimes.FormatDate | src/reports.py:17 | `strftime("%d.%m.%Y")` writes 10 characters |
| DateTimes.FormatTimestamp | src/utils.py:45 | the record format writes 19 characters |
| DateTimes.FormatThenParse | src/utils.py:45 | every valid datetime written in the record format parses back to itself |
| DateTimes.ParseThenFormat | src/utils.py:45 | every string that parses is the canonical text of its value, so parsing is injective |
| DateTimes.FormatDateThenParse | src/reports.py:17-18 | a day written as `%d.%m.%Y` parses back to midnight of that day |
| DateTimes.MonthStart | src/utils.py:42 | `replace(day=1)` keeps year, month and clock time, is valid, and is not after the reference |
| DateTimes.MonthsBefore | src/reports.py:19 | `t - DateOffset(months=n)`: exactly n months earlier, day clamped to the target month's length, same clock, not after t; fails only before year 1 |
| DateTimes.MonthsBeforeClampsToFebruary | src/reports.py:36 | 31 May minus three months is 28 February (29 in a leap year); 20 December gives 20 September |
| DateTimes.Weekday | src/reports.py:41 | `dt.dayofweek` lies in 0..6 |
| DateTimes.NextDayOrdinal | src/reports.py:41 | consecutive calendar days have consecutive day numbers, across month and year ends |
| DateTimes.NextDayWeekday | src/reports.py:41 | the weekday advances by one per day and wraps from Sunday to Monday |
| DateTimes.WeekdayAnchor | src/reports.py:41 | 20 December 2021 is a Monday (0) and 26 December 2021 a Sunday (6) |
| Greeting.Greetings | src/utils.py:9-22 | never falls through: a parsed time maps to exactly one greeting, [5,12) morning, [12,18) day, [18,23] evening, [0,5) night; text that does not parse gets "Неправильная дата" |
| Greeting.GreetingsRejectsOtherFormats | src/utils.py:21-22 | "12345" and the ISO form get the error text |
| MonthFilter.Strptime | src/utils.py:44-45 | a date text that does not parse is ValueError; a value that is not a str is TypeError |
| MonthFilter.MonthSoFar | src/utils.py:42-46 | the window from the 1st of the reference's month, at the reference's clock time, up to the reference, both ends included |
| MonthFilter.InMonthSoFar | src/utils.py:44-46 | a record is kept when its date parses and lies in that window |
| MonthFilter.FirstDateFailure | src/utils.py:43-45 | no failure exactly when every record's date parses; a failure is ValueError or TypeError |
| MonthFilter.FirstDateFailureIsFirst | src/utils.py:43-45 | the reported failure is that of the first record whose date fails |
| MonthFilter.FirstDateFailureOfPrefix | src/utils.py:39-50 | once a prefix fails, the whole list fails the same way |
| MonthFilter.FilteringTransactionsByDate | src/utils.py:37-50 | the list only when the reference and every date parse, and then exactly Filter(records, start <= t <= ref); the error text on any ValueError; TypeError escapes |
| MonthFilter.MonthSoFarIsThisMonth | src/utils.py:42-46 | every record kept lies in the reference's month, on or before its day |
| MonthFilter.MonthSoFarBoundsInclusive | src/utils.py:46 | both bounds are inclusive |
| MonthFilter.FirstOfMonthBeforeClockExcluded | src/utils.py:42-46 | on the 1st, a record earlier in the day than the reference's clock time is excluded |
| Seqs.Filter | src/utils.py:43-47 | the selection is no longer than the input and every element kept passes the test |
| Seqs.FilterCounts | src/utils.py:46-47 | each element passing the test is kept as often as it occurs; nothing else is kept |
| Seqs.FilterIsSubseq | src/utils.py:43-47 | the selection keeps the input order |
| Seqs.FilterFilter | src/reports.py:20-23 | two successive masks select what their conjunction selects |
| Seqs.Map | src/reports.py:21 | a column conversion keeps the length and converts each row in place |
| Seqs.FilterMap | src/reports.py:20-21 | masking commutes with a conversion that does not change what the mask looks at |
| Cashback.RoundedHundredth | src/utils.py:60 | within half a kopeck of n/100, an exact tie going to the even neighbour |
| Cashback.RoundedHundredthUnique | src/utils.py:60 | those two conditions determine the rounded value uniquely |
| Cashback.RoundedHundredthOdd | src/utils.py:60 | rounding is symmetric: a refund rounds to minus the purchase's value |
| Cashback.CalculateCashback | src/utils.py:57-61 | zero gives zero; otherwise one per cent rounded half-even to the kopeck |
| Cashback.CalculateCashbackExamples | src/utils.py:57-61 | 150 → 1.50, 2068.56 → 20.69, 0 → 0, 34.00 → 0.34, 172.69 → 1.73, 42.92 → 0.43 |
| Records.Abs | src/utils.py:85 | the absolute value is x or -x and not negative |
| CardTotals.StripMask | src/utils.py:72 | `replace('*', '')` leaves no '*' and is no longer than the input |
| CardTotals.StripMaskKeepsTheRest | src/utils.py:72 | every other character is kept, in order and with its count |
| CardTotals.StripMaskAppend | src/utils.py:72 | stripping a number extended by one character strips that character alone |
| CardTotals.CardKey | src/utils.py:68-72 | a record's grouping key: its card number without '*' when the number is a str, none otherwise |
| CardTotals.AmountOf | src/utils.py:73 | the number a record adds: its rounded amount, 0 when the key is missing, and no number for NaN |
| CardTotals.HasNaN | src/utils.py:73-75 | some record of the card has a NaN rounded amount; `if amount:` holds for NaN, so both sums of that card are NaN |
| CardTotals.Summed | src/utils.py:77 | the emitted float: NaN exactly when a NaN was added, otherwise the exact sum |
| CardTotals.SpentOn | src/utils.py:74 | the card's `total_spent`: the sum of the numeric rounded amounts of its records |
| CardTotals.CashbackOn | src/utils.py:75 | the card's `cashback`: the sum of the per-record cashback of those amounts |
| CardTotals.CardKeys | src/utils.py:67-72 | at most one key per record |
| CardTotals.CardKeysMembers | src/utils.py:68-72 | a key is listed exactly when some record with a str card number carries it |
| CardTotals.FirstSeen | src/utils.py:76 | the dict's keys are no more than the keys seen |
| CardTotals.FirstSeenMembers | src/utils.py:74-76 | every key seen gets an entry and no other key does |
| CardTotals.FirstSeenDistinct | src/utils.py:76 | each card appears once in the result |
| CardTotals.FirstSeenOrder | src/utils.py:76 | entries come in order of the card's first occurrence |
| CardTotals.FirstIndex | src/utils.py:76 | the first position of a key: it holds the key and no earlier one does |
| CardTotals.Charge | src/utils.py:66-75 | the defaultdict update creates the card's entry at zero if needed and changes no other entry; the card's entry gains the amount and its cashback, gains nothing for a missing amount, and turns NaN for a NaN amount |
| CardTotals.AppendRecord | src/utils.py:67-74 | one more record adds its key and its amount when its card number is a str, and nothing otherwise |
| CardTotals.AppendRecordTo | src/utils.py:73-75 | one more record changes a card's spending, cashback and NaN flag only if it is that card's record |
| CardTotals.AppendKey | src/utils.py:74-76 | a new key goes at the end of the dict's order; a known key keeps its place |
| CardTotals.TallyRecord | src/utils.py:67-75 | one loop step on a record with a str card keeps the dict equal to the per-card sums so far |
| CardTotals.TallySkip | src/utils.py:69-70 | a record whose card number is not a str changes nothing |
| CardTotals.TransactionAnalysis | src/utils.py:63-78 | one entry per distinct stripped card, in first-seen order, holding the sum of 'Сумма операции с округлением' (missing = 0) and the sum of per-record cashback; both are NaN exactly when some record of the card has a NaN amount |
| CardTotals.NoKeyNoSpending | src/utils.py:66 | a card never seen has nothing spent, nothing earned and no NaN |
| CardTotals.NoTextualCardNoSummary | src/utils.py:68-70 | when no card number is a str, the result is empty |
| CardTotals.SpentOnEachAppend | src/utils.py:74 | an appended record adds to the per-card sums only for its own listed card |
| CardTotals.TotalsAddUp | src/utils.py:74-77 | the entries' totals add up to everything spent on str card numbers: nothing lost, nothing counted twice |
| CardTotals.StripMaskLeadingStar | src/utils.py:72 | a number masked by one leading '*', such as "*7197", strips to the digits after it |
| CardTotals.TwoCardsKeys | src/utils.py:67-72 | the example's records carry the keys 7197, 7197 and 5091 |
| CardTotals.FirstSeenOfRepeat | src/utils.py:76 | a repeated key keeps its first place |
| CardTotals.TwoCardsOrder | src/utils.py:76-77 | 34.00 and 172.69 on *7197, then 42.92 on *5091, give the entries 7197 and 5091 in that order |
| CardTotals.TwoCardsTotals | src/utils.py:73-75 | the same records give 206.69 and 2.07 for 7197, and 42.92 and 0.43 for 5091 |
| CardTotals.NaNAmountPoisonsCard | src/utils.py:73-77 | one NaN amount makes the card's totals NaN whatever records follow |
| CardTotals.NoNaNExactSums | src/utils.py:73-77 | without NaN amounts every card's totals are the exact sums |
| TopFive.AbsPayment | src/utils.py:85 | only the payment changes; a number becomes its absolute value and NaN stays NaN |
| TopFive.AbsPaymentIdempotent | src/utils.py:85 | taking the absolute value twice changes nothing more |
| TopFive.RanksAbove | src/utils.py:86 | the order of `sort_values(ascending=False)`: a larger or equal payment first, NaN after every number |
| TopFive.RanksAboveIsTotalPreorder | src/utils.py:86 | the descending order on payments is a total preorder |
| TopFive.NaNRanksLast | src/utils.py:86 | NaN payments sort after every number (`na_position='last'`) |
| TopFive.Insert | src/utils.py:86 | inserting adds exactly one element and keeps the others |
| TopFive.InsertSorted | src/utils.py:86 | inserting into a descending sequence keeps it descending |
| TopFive.SortDescending | src/utils.py:86 | the sort is a permutation of its input |
| TopFive.SortDescendingSorted | src/utils.py:86 | the sort's result is descending by payment |
| TopFive.PrefixOfSorted | src/utils.py:87 | `head()` of a sorted frame is sorted, is drawn from it, and ranks above everything left out |
| TopFive.TopFive | src/utils.py:82-88 | KeyError exactly when no record has the payment key (including no records); otherwise min(5, n) rows |
| TopFive.TopFiveRanks | src/utils.py:84-87 | the rows kept are descending, are input rows with absolute payments, and rank above every row left out |
| TopFive.InsertSmallest | src/utils.py:86 | 346.67 inserted behind 562.67 and 505.67 goes last |
| TopFive.SortDescendingReversesAscending | src/utils.py:86 | 346.67, 505.67, 562.67 sort to 562.67, 505.67, 346.67 |
| TopFive.AbsPaymentOfRefund | src/utils.py:85 | the refund -505.67 becomes 505.67 |
| TopFive.TopFiveOrdersByAbsoluteValue | src/utils.py:84-87 | 346.67, -505.67 and 562.67 come out as 562.67, 505.67, 346.67 |
| Reports.CoerceCell | src/reports.py:37 | `to_datetime(errors='coerce')`: parsable text becomes its timestamp, a timestamp stays, everything else becomes NaT |
| Reports.CoerceCellIdempotent | src/reports.py:37 | converting a converted column changes nothing |
| Reports.ToDatetime | src/reports.py:21 | the strict conversion fails with ValueError exactly on unparsable text, and otherwise agrees with the coercing one |
| Reports.CoerceRow | src/reports.py:37 | only the date cell of a row changes |
| Reports.ReportWindow | src/reports.py:18-19 | reference = the date at midnight; start = three calendar months earlier, day clamped, at midnight, not after the reference; ValueError for a bad date, OutOfBoundsDatetime before year 1 |
| Reports.ReportWindowClampsDay | src/reports.py:18-19 | the window of 31.05.2021 opens on 28.02.2021 |
| Reports.InWindow | src/reports.py:22-23 | `start_month <= date <= date_string`, false for NaT |
| Reports.LaterOnReferenceDayExcluded | src/reports.py:18-23 | a record later in the day on the reference day is outside the window |
| Reports.UnparsableDateLeavesWindow | src/reports.py:37-39 | a coerced unparsable date is outside every window |
| Reports.HasCategory | src/reports.py:20 | `transactions_['Категория'] == category`; a missing category never matches |
| Reports.BadDateInCategory | src/reports.py:20-21 | some row of the category has a date text the strict conversion rejects |
| Reports.SpendingByCategory | src/reports.py:14-25 | fails on a bad date argument, an out-of-range offset, or a record of the category whose date does not parse, with the matching error; otherwise every row returned is in the window |
| Reports.SpendingByCategoryIsOneMask | src/reports.py:20-23 | the result is one boolean mask (category and window) over the converted frame |
| Reports.SpendingByCategorySelectsExactly | src/reports.py:20-25 | rows of the category in the window, in input order, each exactly as often as in the input, no others |
| Reports.Relabel | src/reports.py:47 | the seven values get the labels Пн … Вс in weekday order |
| Reports.DayPresent | src/reports.py:41-47 | weekday `w` forms a group: some row in the window falls on it |
| Reports.DayAmounts | src/reports.py:44 | a weekday's group has at most one amount per row |
| Reports.AbsMean | src/reports.py:44 | no mean for an empty group; otherwise a non-negative value whose product with the count is the absolute total |
| Reports.DayValue | src/reports.py:44 | a weekday's mean is NaN exactly when its group has no number |
| Reports.DayMeans | src/reports.py:44 | seven values, one per weekday, Monday first |
| Reports.WeekdayReport | src/reports.py:41-47 | ValueError unless all seven weekdays occur in the window; otherwise seven labelled entries, NaN exactly for days without numeric amounts |
| Reports.OutsideWindowIgnored | src/reports.py:38-44 | a row outside the window changes no weekday's value |
| Reports.BadDateTwoWays | src/reports.py:21-39 | an unparsable date in the category fails the category report but is silently dropped by the weekday report |
| Reports.AbsAfterMean | src/reports.py:44 | `abs` is taken of the mean: -1.00 and 3.00 give 1.00, while 1.00 and 3.00 give 2.00 |
| Reports.FoldRecord | src/reports.py:38-44 | one more row adds to its own weekday's group, and only when it is in the window |
| Reports.TotalAppend | src/reports.py:44 | the total of a group grows by the amount appended |
| Reports.CoerceDates | src/reports.py:37 | the caller's array ends up holding each row with its date coerced |
| Reports.FoldWeekdays | src/reports.py:38-44 | the fold's per-weekday totals, counts and presence flags equal the group totals, group sizes and group presence |
| Reports.SpendingByWeekday | src/reports.py:32-49 | a bad date or offset fails first and leaves the array alone; otherwise the array is overwritten with the coerced rows and the result is WeekdayReport of them |

## Left out

- Reading the spreadsheet (`read_excel`, `read_excel_dataframe`) and the calls made at import time are not modelled; they are file I/O.
- `src/views.py`, `src/services.py`, `src/decorators.py` and `src/main.py` are not part of this model. They cover HTTP requests, JSON wrappers, file writing and printing.
- The "today" default of both reports is not modelled; the date is always a parameter.
- Floating point is not modelled. Amounts are exact kopecks. The final `round(total, 2)` of an exact kopeck sum is the identity. A pandas `mean` is an exact `real`.
- Cashback.CalculateCashback: `round(amount / 100, 2)` is modelled as half-even rounding of the exact value n/100. Python rounds the nearest binary float instead, so on exact ties the two can differ: amount 1.50 gives 0.01 in the source (0.015 is stored just below the tie) and 0.02 here; 0.50 gives 0.01 there and 0.00 here; 2.50 gives 0.03 there and 0.02 here.
- `top_five` produces JSON text with `to_json`; that text is not modelled, only the rows it is made from.
- TopFive.TopFive: the model sorts stably. The contract and TopFiveRanks promise nothing about the order of equal payments, because pandas' default quicksort is not stable.
- DateTimes.ParseTimestamp and DateTimes.ParseDate accept only the canonical form: two-digit fields, a four-digit year and exactly one space. `strptime` is looser: the space in the format matches any run of whitespace ("20.12.2021  16:44:00" parses), and a numeric field may be a single digit, the day also a space-padded digit ("1.1.2021", " 1.12.2021"). The model rejects those strings. Both reject seconds 60 and 61.
- DateTimes.MonthsBefore fails only before year 1. A pandas Timestamp is limited to about 1677–2262, and that narrower range is not modelled.
- Records: 'Сумма операции' is an `Option`, so NaN and a missing key are the same value there. It is read only inside a frame by `mean`, where a missing key is NaN and NaN is skipped, so the two are alike.
- Reports: the model takes the frame to have the 'Категория', 'Дата операции' and 'Сумма операции' columns. The KeyError a frame without one of them would raise is not modelled. Without 'Сумма операции', `spending_by_weekday` raises KeyError at src/reports.py:44, where the model returns NaN means or ValueError.
- Reports.SpendingByWeekday: the new 'День недели' column is added to a copy and is not part of the result, so it is not modelled.
- Some tests in the repository expect behaviour the source does not have: ISO-format dates, another error text, a projected `top_five`, `top_five([]) == []`, and a different `spending_by_category` signature. The model follows the source.
