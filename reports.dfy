/**
 * The two reports of src/reports.py over the last three calendar months:
 * the spending of one category, and the average spending per day of the
 * week. The "today" default of both is not modelled: the date is always
 * passed.
 */
module Reports {
  import opened Wrappers
  import opened DateTimes
  import opened Records
  import opened Seqs

  // ---------------------------------------------------------------------------
  // Converting the 'Дата операции' column
  // ---------------------------------------------------------------------------

  /**
   * `pd.to_datetime(cell, format="%d.%m.%Y %H:%M:%S", errors='coerce')`:
   * text that parses becomes a timestamp, a timestamp stays, and everything
   * else (unparsable text, a missing value, NaT) becomes NaT.
   */
  function CoerceCell(c: DateCell): (r: DateCell)
    ensures r.Stamp? || r.NotATime?
    ensures c.Stamp? ==> r == c
    ensures c.Text? ==> (r.Stamp? <==> ParseTimestamp(c.text).Some?)
    ensures c.Text? && r.Stamp? ==> Some(r.time) == ParseTimestamp(c.text)
    ensures c.Missing? || c.NotATime? ==> r == NotATime
  {
    match c
    case Text(s) => if ParseTimestamp(s).Some? then Stamp(ParseTimestamp(s).value) else NotATime
    case Stamp(_) => c
    case _ => NotATime
  }

  /** Converting an already converted column changes nothing. */
  lemma CoerceCellIdempotent(c: DateCell)
    ensures CoerceCell(CoerceCell(c)) == CoerceCell(c)
  {
  }

  /**
   * The same conversion with the default `errors='raise'`: it fails with
   * ValueError exactly on text that does not parse, and wherever it
   * succeeds it agrees with the coercing conversion.
   */
  function ToDatetime(c: DateCell): (r: Result<DateCell, Exception>)
    ensures r.Failure? <==> c.Text? && ParseTimestamp(c.text).None?
    ensures r.Failure? ==> r.error == ValueError
    ensures r.Success? ==> r.value == CoerceCell(c)
  {
    match c
    case Text(s) => (match ParseTimestamp(s) case Some(t) => Success(Stamp(t)) case None => Failure(ValueError))
    case Stamp(_) => Success(c)
    case _ => Success(NotATime)
  }

  /** A record after its date cell has been converted. */
  function CoerceRow(x: Record): (r: Record)
    ensures r.(operationDate := x.operationDate) == x
    ensures r.operationDate == CoerceCell(x.operationDate)
  {
    x.(operationDate := CoerceCell(x.operationDate))
  }

  // ---------------------------------------------------------------------------
  // The window: three calendar months back from the reference day's midnight
  // ---------------------------------------------------------------------------

  /**
   * `strptime(date, "%d.%m.%Y")` and `date_string - pd.DateOffset(months=3)`:
   * the pair (start, reference). The reference is midnight of the given
   * day; the start is the same day three calendar months earlier, clamped
   * to that month's length, also at midnight.
   */
  function ReportWindow(date: string): (r: Result<(DateTime, DateTime), Exception>)
    ensures r.Failure? <==> ParseDate(date).None? || MonthsBefore(ParseDate(date).value, 3).None?
    ensures r.Failure? ==> (r.error == ValueError <==> ParseDate(date).None?)
    ensures r.Failure? ==> r.error == ValueError || r.error == OutOfBoundsDatetime
    ensures r.Success? ==> Some(r.value.1) == ParseDate(date)
    ensures r.Success? ==> var (start, reference) := r.value;
      && Valid(start) && AtOrBefore(start, reference)
      && MonthIndex(start) == MonthIndex(reference) - 3
      && start.day == Min(reference.day, DaysInMonth(start.year, start.month))
      && start.hour == 0 && start.minute == 0 && start.second == 0
  {
    match ParseDate(date)
    case None => Failure(ValueError)
    case Some(reference) =>
      match MonthsBefore(reference, 3)
      case None => Failure(OutOfBoundsDatetime)
      case Some(start) => Success((start, reference))
  }

  /** The window of 31 May 2021 opens on the last day of February. */
  lemma ReportWindowClampsDay(date: string)
    requires ParseDate(date) == Some(DateTime(2021, 5, 31, 0, 0, 0))
    ensures ReportWindow(date) == Success((DateTime(2021, 2, 28, 0, 0, 0), DateTime(2021, 5, 31, 0, 0, 0)))
  {
  }

  /** `(col >= start_month) & (col <= date_string)`; NaT compares false both ways. */
  predicate InWindow(x: Record, start: DateTime, reference: DateTime) {
    x.operationDate.Stamp? && AtOrBefore(start, x.operationDate.time) && AtOrBefore(x.operationDate.time, reference)
  }

  function InWindowOf(start: DateTime, reference: DateTime): Record -> bool {
    (x: Record) => InWindow(x, start, reference)
  }

  /** Since the reference is midnight, a record later on the reference day is outside the window. */
  lemma LaterOnReferenceDayExcluded(x: Record, date: string)
    requires ReportWindow(date).Success?
    requires x.operationDate.Stamp? && Valid(x.operationDate.time)
    requires var t, reference := x.operationDate.time, ReportWindow(date).value.1;
      t.year == reference.year && t.month == reference.month && t.day == reference.day
      && (t.hour, t.minute, t.second) != (0, 0, 0)
    ensures !InWindow(x, ReportWindow(date).value.0, ReportWindow(date).value.1)
  {
    var reference := ReportWindow(date).value.1;
    assert reference.hour == 0 && reference.minute == 0 && reference.second == 0;
  }

  /** A record whose date text does not parse is outside every window once coerced. */
  lemma UnparsableDateLeavesWindow(x: Record, start: DateTime, reference: DateTime)
    requires x.operationDate.Text? && ParseTimestamp(x.operationDate.text).None?
    ensures !InWindow(CoerceRow(x), start, reference)
  {
  }

  // ---------------------------------------------------------------------------
  // spending_by_category
  // ---------------------------------------------------------------------------

  /** `transactions_['Категория'] == category`; a missing category (NaN) never matches. */
  function HasCategory(category: string): Record -> bool {
    (x: Record) => x.category == Some(category)
  }

  /** Both masks at once. */
  function SelectedBy(category: string, start: DateTime, reference: DateTime): Record -> bool {
    (x: Record) => x.category == Some(category) && InWindow(x, start, reference)
  }

  /** Some record of the category has a date text the strict conversion rejects. */
  predicate BadDateInCategory(rows: seq<Record>, category: string) {
    exists i | 0 <= i < |rows| :: rows[i].category == Some(category) && ToDatetime(rows[i].operationDate).Failure?
  }

  /**
   * `spending_by_category(transactions_, category, date)`: the rows of the
   * category, their dates converted strictly, then masked by the window.
   * Errors come in source order: the date argument, the month offset, then
   * any record of the category whose date does not parse. Records of other
   * categories are never converted, so their dates cannot fail the call.
   */
  function SpendingByCategory(rows: seq<Record>, category: string, date: string): (r: Result<seq<Record>, Exception>)
    ensures r.Failure? <==> ReportWindow(date).Failure? || BadDateInCategory(rows, category)
    ensures r.Failure? ==> r.error == if ReportWindow(date).Failure? then ReportWindow(date).error else ValueError
    ensures r.Success? ==> forall i | 0 <= i < |r.value| ::
      InWindow(r.value[i], ReportWindow(date).value.0, ReportWindow(date).value.1)
  {
    match ReportWindow(date)
    case Failure(e) => Failure(e)
    case Success((start, reference)) =>
      var chosen := Filter(rows, HasCategory(category));
      if BadDateInCategory(rows, category) then Failure(ValueError)
      else Success(Filter(Map(chosen, CoerceRow), InWindowOf(start, reference)))
  }

  /**
   * The result is one boolean mask over the converted frame: exactly the
   * records of the category inside the window, each as often as in the
   * input and in input order.
   */
  lemma {:induction false} SpendingByCategoryIsOneMask(rows: seq<Record>, category: string, date: string)
    requires SpendingByCategory(rows, category, date).Success?
    ensures var (start, reference) := ReportWindow(date).value;
      SpendingByCategory(rows, category, date).value == Filter(Map(rows, CoerceRow), SelectedBy(category, start, reference))
  {
    var (start, reference) := ReportWindow(date).value;
    var converted := Map(rows, CoerceRow);
    FilterMap(rows, CoerceRow, HasCategory(category), HasCategory(category));
    FilterFilter(converted, HasCategory(category), InWindowOf(start, reference), SelectedBy(category, start, reference));
  }

  /** Spelled out: the category, the window, order preserved, nothing dropped and nothing duplicated. */
  lemma SpendingByCategorySelectsExactly(rows: seq<Record>, category: string, date: string)
    requires SpendingByCategory(rows, category, date).Success?
    ensures var (start, reference) := ReportWindow(date).value;
      var result := SpendingByCategory(rows, category, date).value;
      && (forall i | 0 <= i < |result| :: result[i].category == Some(category) && InWindow(result[i], start, reference))
      && IsSubseq(result, Map(rows, CoerceRow))
      && forall x :: multiset(result)[x]
           == if x.category == Some(category) && InWindow(x, start, reference) then multiset(Map(rows, CoerceRow))[x] else 0
  {
    var (start, reference) := ReportWindow(date).value;
    SpendingByCategoryIsOneMask(rows, category, date);
    FilterIsSubseq(Map(rows, CoerceRow), SelectedBy(category, start, reference));
    FilterCounts(Map(rows, CoerceRow), SelectedBy(category, start, reference));
  }

  // ---------------------------------------------------------------------------
  // spending_by_weekday
  // ---------------------------------------------------------------------------

  /** The labels `['Пн', 'Вт', 'Ср', 'Чт', 'Пт', 'Сб', 'Вс']`, Monday first. */
  const WeekdayNames: seq<string> := ["Пн", "Вт", "Ср", "Чт", "Пт", "Сб", "Вс"]

  /** One entry of the returned Series; None is NaN. */
  datatype DayMean = DayMean(name: string, mean: Option<real>)

  /** `average_spending.index = [...]`: the seven values paired with the labels, in weekday order. */
  function Relabel(values: seq<Option<real>>): (r: seq<DayMean>)
    requires |values| == 7
    ensures |r| == 7
    ensures forall w | 0 <= w < 7 :: r[w] == DayMean(WeekdayNames[w], values[w])
  {
    [DayMean(WeekdayNames[0], values[0]), DayMean(WeekdayNames[1], values[1]), DayMean(WeekdayNames[2], values[2]),
     DayMean(WeekdayNames[3], values[3]), DayMean(WeekdayNames[4], values[4]), DayMean(WeekdayNames[5], values[5]),
     DayMean(WeekdayNames[6], values[6])]
  }

  predicate OnWeekday(x: Record, start: DateTime, reference: DateTime, w: int) {
    InWindow(x, start, reference) && Weekday(x.operationDate.time) == w
  }

  /** Whether weekday `w` forms a group: some row of the window falls on it. */
  predicate DayPresent(rows: seq<Record>, start: DateTime, reference: DateTime, w: int) {
    exists i | 0 <= i < |rows| :: OnWeekday(rows[i], start, reference, w)
  }

  /** The 'Сумма операции' values of the group of weekday `w`, NaN left out as `mean` leaves it out. */
  function DayAmounts(rows: seq<Record>, start: DateTime, reference: DateTime, w: int): (a: seq<Kopecks>)
    ensures |a| <= |rows|
    decreases |rows|
  {
    if rows == [] then []
    else
      var last := rows[|rows| - 1];
      DayAmounts(rows[..|rows| - 1], start, reference, w)
        + if OnWeekday(last, start, reference, w) && last.operationAmount.Some? then [last.operationAmount.value] else []
  }

  function Total(a: seq<int>): int
    decreases |a|
  {
    if a == [] then 0 else Total(a[..|a| - 1]) + a[|a| - 1]
  }

  /** `abs(mean)` of a group from its total and its count; a group with no number has mean NaN. */
  function AbsMean(total: int, count: nat): (m: Option<real>)
    ensures m.None? <==> count == 0
    ensures m.Some? ==> m.value >= 0.0
    ensures m.Some? ==> m.value * (count as real) == (if total < 0 then -total else total) as real
  {
    if count == 0 then None else Some((if total < 0 then -total else total) as real / count as real)
  }

  /** The absolute mean of weekday `w`'s numeric amounts. */
  function DayValue(rows: seq<Record>, start: DateTime, reference: DateTime, w: int): (m: Option<real>)
    ensures m.None? <==> DayAmounts(rows, start, reference, w) == []
  {
    var amounts := DayAmounts(rows, start, reference, w);
    AbsMean(Total(amounts), |amounts|)
  }

  /** The seven values, Monday first. */
  function DayMeans(rows: seq<Record>, start: DateTime, reference: DateTime): (m: seq<Option<real>>)
    ensures |m| == 7
    ensures forall w | 0 <= w < 7 :: m[w] == DayValue(rows, start, reference, w)
  {
    [DayValue(rows, start, reference, 0), DayValue(rows, start, reference, 1), DayValue(rows, start, reference, 2),
     DayValue(rows, start, reference, 3), DayValue(rows, start, reference, 4), DayValue(rows, start, reference, 5),
     DayValue(rows, start, reference, 6)]
  }

  /**
   * What `groupby('День недели')['Сумма операции'].mean().abs()` followed
   * by the relabelling gives for the converted rows: one entry per weekday,
   * Monday first; the relabelling raises ValueError unless all seven
   * weekdays form a group.
   */
  function WeekdayReport(rows: seq<Record>, start: DateTime, reference: DateTime): (r: Result<seq<DayMean>, Exception>)
    ensures r.Failure? <==> exists w | 0 <= w < 7 :: !DayPresent(rows, start, reference, w)
    ensures r.Failure? ==> r.error == ValueError
    ensures r.Success? ==> |r.value| == 7
    ensures r.Success? ==> forall w | 0 <= w < 7 ::
      r.value[w].name == WeekdayNames[w]
      && (r.value[w].mean.None? <==> DayAmounts(rows, start, reference, w) == [])
  {
    if forall w | 0 <= w < 7 :: DayPresent(rows, start, reference, w) then
      Success(Relabel(DayMeans(rows, start, reference)))
    else Failure(ValueError)
  }

  /** A row outside the window changes no group. */
  lemma {:induction false} OutsideWindowIgnored(rows: seq<Record>, x: Record, start: DateTime, reference: DateTime)
    requires !InWindow(x, start, reference)
    ensures WeekdayReport(rows + [x], start, reference) == WeekdayReport(rows, start, reference)
  {
    var extended := rows + [x];
    assert extended[..|rows|] == rows;
    forall w | 0 <= w < 7
      ensures DayPresent(extended, start, reference, w) == DayPresent(rows, start, reference, w)
      ensures DayAmounts(extended, start, reference, w) == DayAmounts(rows, start, reference, w)
    {
      if DayPresent(extended, start, reference, w) {
        var i :| 0 <= i < |extended| && OnWeekday(extended[i], start, reference, w);
        assert rows[i] == extended[i];
      }
      if DayPresent(rows, start, reference, w) {
        var i :| 0 <= i < |rows| && OnWeekday(rows[i], start, reference, w);
        assert extended[i] == rows[i];
      }
    }
    var a, b := WeekdayReport(extended, start, reference), WeekdayReport(rows, start, reference);
    if a.Success? {
      assert b.Success?;
      forall w | 0 <= w < 7
        ensures a.value[w] == b.value[w]
      {
        assert DayAmounts(extended, start, reference, w) == DayAmounts(rows, start, reference, w);
      }
      assert a.value == b.value;
    } else {
      assert b.Failure?;
    }
  }

  /**
   * The two reports treat a bad date differently: in the category report
   * it fails the call, in the weekday report the coerced row is dropped.
   */
  lemma BadDateTwoWays(rows: seq<Record>, x: Record, category: string, date: string)
    requires ReportWindow(date).Success?
    requires x.category == Some(category)
    requires x.operationDate.Text? && ParseTimestamp(x.operationDate.text).None?
    ensures SpendingByCategory(rows + [x], category, date) == Failure(ValueError)
    ensures var (start, reference) := ReportWindow(date).value;
      WeekdayReport(Map(rows + [x], CoerceRow), start, reference) == WeekdayReport(Map(rows, CoerceRow), start, reference)
  {
    var (start, reference) := ReportWindow(date).value;
    assert (rows + [x])[|rows|] == x;
    var extended := rows + [x];
    assert Map(extended, CoerceRow) == Map(rows, CoerceRow) + [CoerceRow(x)] by {
      assert extended[..|rows|] == rows;
    }
    UnparsableDateLeavesWindow(x, start, reference);
    OutsideWindowIgnored(Map(rows, CoerceRow), CoerceRow(x), start, reference);
  }

  /** `abs` is taken of the mean, not of each amount: -1.00 and 3.00 average to 1.00, not 2.00. */
  lemma AbsAfterMean()
    ensures AbsMean(Total([-100, 300]), 2) == Some(100.0)
    ensures AbsMean(Total([100, 300]), 2) == Some(200.0)
  {
    assert [-100, 300][..1] == [-100];
    assert [100, 300][..1] == [100];
  }

  /** The effect of one record on the fold's three per-weekday accumulators. */
  lemma FoldRecord(rows: seq<Record>, x: Record, start: DateTime, reference: DateTime)
    ensures forall w | 0 <= w < 7 ::
      (DayPresent(rows + [x], start, reference, w) <==> DayPresent(rows, start, reference, w) || OnWeekday(x, start, reference, w))
      && DayAmounts(rows + [x], start, reference, w)
         == if OnWeekday(x, start, reference, w) && x.operationAmount.Some?
            then DayAmounts(rows, start, reference, w) + [x.operationAmount.value]
            else DayAmounts(rows, start, reference, w)
  {
    var extended := rows + [x];
    assert extended[..|rows|] == rows;
    assert extended[|rows|] == x;
    forall w | 0 <= w < 7 && DayPresent(rows, start, reference, w)
      ensures DayPresent(extended, start, reference, w)
    {
      var i :| 0 <= i < |rows| && OnWeekday(rows[i], start, reference, w);
      assert extended[i] == rows[i];
    }
  }

  lemma TotalAppend(a: seq<int>, v: int)
    ensures Total(a + [v]) == Total(a) + v
  {
    assert (a + [v])[..|a|] == a;
  }

  /** Line 37: the caller's 'Дата операции' column is overwritten with its coerced conversion. */
  method CoerceDates(transactions: array<Record>)
    modifies transactions
    ensures transactions[..] == Map(old(transactions[..]), CoerceRow)
  {
    var i := 0;
    while i < transactions.Length
      invariant 0 <= i <= transactions.Length
      invariant forall k | 0 <= k < i :: transactions[k] == CoerceRow(old(transactions[k]))
      invariant forall k | i <= k < transactions.Length :: transactions[k] == old(transactions[k])
    {
      transactions[i] := CoerceRow(transactions[i]);
      i := i + 1;
    }
  }

  /**
   * Lines 38-44 up to the mean: the in-window rows folded into per-weekday
   * totals and counts of the numeric amounts, and whether each weekday
   * forms a group at all.
   */
  method FoldWeekdays(rows: seq<Record>, start: DateTime, reference: DateTime)
    returns (totals: seq<int>, counts: seq<nat>, seen: seq<bool>)
    ensures |totals| == 7 && |counts| == 7 && |seen| == 7
    ensures forall w | 0 <= w < 7 ::
      totals[w] == Total(DayAmounts(rows, start, reference, w))
      && counts[w] == |DayAmounts(rows, start, reference, w)|
      && (seen[w] <==> DayPresent(rows, start, reference, w))
  {
    totals, counts, seen := [0, 0, 0, 0, 0, 0, 0], [0, 0, 0, 0, 0, 0, 0], [false, false, false, false, false, false, false];
    var j := 0;
    while j < |rows|
      invariant 0 <= j <= |rows|
      invariant |totals| == 7 && |counts| == 7 && |seen| == 7
      invariant forall w | 0 <= w < 7 ::
        totals[w] == Total(DayAmounts(rows[..j], start, reference, w))
        && counts[w] == |DayAmounts(rows[..j], start, reference, w)|
        && (seen[w] <==> DayPresent(rows[..j], start, reference, w))
    {
      var x := rows[j];
      assert rows[..j + 1] == rows[..j] + [x];
      FoldRecord(rows[..j], x, start, reference);
      if InWindow(x, start, reference) {
        var w := Weekday(x.operationDate.time);
        seen := seen[w := true];
        if x.operationAmount.Some? {
          TotalAppend(DayAmounts(rows[..j], start, reference, w), x.operationAmount.value);
          totals := totals[w := totals[w] + x.operationAmount.value];
          counts := counts[w := counts[w] + 1];
        }
      }
      j := j + 1;
    }
    assert rows[..j] == rows;
  }

  /**
   * `spending_by_weekday(transactions_, date)`. The window comes first, so
   * a bad date or offset fails before anything is touched. Then the
   * caller's 'Дата операции' column is overwritten with the coerced
   * conversion, the in-window rows are folded per weekday, and the seven
   * values are computed from the fold.
   */
  method SpendingByWeekday(transactions: array<Record>, date: string) returns (r: Result<seq<DayMean>, Exception>)
    modifies transactions
    ensures ReportWindow(date).Failure? ==>
      r == Failure(ReportWindow(date).error) && transactions[..] == old(transactions[..])
    ensures ReportWindow(date).Success? ==> transactions[..] == Map(old(transactions[..]), CoerceRow)
    ensures ReportWindow(date).Success? ==>
      r == WeekdayReport(transactions[..], ReportWindow(date).value.0, ReportWindow(date).value.1)
  {
    var window := ReportWindow(date);
    if window.Failure? {
      return Failure(window.error);
    }
    var start, reference := window.value.0, window.value.1;
    CoerceDates(transactions);
    ghost var rows := transactions[..];
    var totals, counts, seen := FoldWeekdays(transactions[..], start, reference);
    if !(forall w | 0 <= w < 7 :: seen[w]) {
      return Failure(ValueError);
    }
    var values := [AbsMean(totals[0], counts[0]), AbsMean(totals[1], counts[1]), AbsMean(totals[2], counts[2]),
                   AbsMean(totals[3], counts[3]), AbsMean(totals[4], counts[4]), AbsMean(totals[5], counts[5]),
                   AbsMean(totals[6], counts[6])];
    assert values == DayMeans(rows, start, reference);
    r := Success(Relabel(values));
  }
}
