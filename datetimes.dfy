/**
 * Calendar timestamps as Python's `datetime` sees them (one-second
 * resolution): the fixed formats the transaction records use, ordering,
 * the first of the month, calendar-month offsets and the day of the week.
 */
module DateTimes {
  import opened Wrappers

  datatype DateTime = DateTime(year: int, month: int, day: int, hour: int, minute: int, second: int)

  /** Python's datetime.MINYEAR and datetime.MAXYEAR. */
  const MinYear := 1
  const MaxYear := 9999

  // ---------------------------------------------------------------------------
  // The proleptic Gregorian calendar
  // ---------------------------------------------------------------------------

  predicate IsLeapYear(y: int) {
    y % 4 == 0 && (y % 100 != 0 || y % 400 == 0)
  }

  function DaysInMonth(y: int, m: int): (n: int)
    requires 1 <= m <= 12
    ensures 28 <= n <= 31
    ensures n == 29 <==> m == 2 && IsLeapYear(y)
  {
    if m == 2 then (if IsLeapYear(y) then 29 else 28)
    else if m == 4 || m == 6 || m == 9 || m == 11 then 30
    else 31
  }

  predicate ValidDate(y: int, m: int, d: int) {
    MinYear <= y <= MaxYear && 1 <= m <= 12 && 1 <= d <= DaysInMonth(y, m)
  }

  predicate ValidClock(h: int, mi: int, s: int) {
    0 <= h < 24 && 0 <= mi < 60 && 0 <= s < 60
  }

  /** What the `datetime` constructor accepts. */
  predicate Valid(t: DateTime) {
    ValidDate(t.year, t.month, t.day) && ValidClock(t.hour, t.minute, t.second)
  }

  // ---------------------------------------------------------------------------
  // Ordering: Python compares datetimes field by field, year first
  // ---------------------------------------------------------------------------

  predicate ClockAtOrBefore(a: DateTime, b: DateTime) {
    a.hour < b.hour
    || (a.hour == b.hour && (a.minute < b.minute
    || (a.minute == b.minute && a.second <= b.second)))
  }

  /** `a <= b` on datetimes. */
  predicate AtOrBefore(a: DateTime, b: DateTime) {
    a.year < b.year
    || (a.year == b.year && (a.month < b.month
    || (a.month == b.month && (a.day < b.day
    || (a.day == b.day && ClockAtOrBefore(a, b))))))
  }

  lemma {:induction false} AtOrBeforeIsTotalOrder(a: DateTime, b: DateTime, c: DateTime)
    ensures AtOrBefore(a, a)
    ensures AtOrBefore(a, b) || AtOrBefore(b, a)
    ensures AtOrBefore(a, b) && AtOrBefore(b, a) ==> a == b
    ensures AtOrBefore(a, b) && AtOrBefore(b, c) ==> AtOrBefore(a, c)
  {
  }

  // ---------------------------------------------------------------------------
  // Fixed-width decimal fields
  // ---------------------------------------------------------------------------

  predicate IsDigit(c: char) {
    '0' <= c <= '9'
  }

  function DigitValue(c: char): (n: nat)
    requires IsDigit(c)
    ensures n <= 9
  {
    c as int - '0' as int
  }

  function DigitChar(n: nat): (c: char)
    requires n <= 9
    ensures IsDigit(c) && DigitValue(c) == n
  {
    (n + '0' as int) as char
  }

  predicate AllDigits(s: string) {
    forall i | 0 <= i < |s| :: IsDigit(s[i])
  }

  function Pow10(k: nat): (p: nat)
    ensures p >= 1
  {
    if k == 0 then 1 else 10 * Pow10(k - 1)
  }

  /** The number a string of decimal digits spells, leading zeros allowed. */
  function NumberValue(s: string): (n: nat)
    requires AllDigits(s)
    ensures n < Pow10(|s|)
    decreases |s|
  {
    if s == [] then 0 else 10 * NumberValue(s[..|s| - 1]) + DigitValue(s[|s| - 1])
  }

  /** `n` written with exactly `width` digits, zero-padded on the left (as `%02d`, `%04d`). */
  function Padded(n: nat, width: nat): (s: string)
    requires n < Pow10(width)
    ensures |s| == width && AllDigits(s)
    ensures NumberValue(s) == n
    decreases width
  {
    if width == 0 then ""
    else
      var s := Padded(n / 10, width - 1) + [DigitChar(n % 10)];
      assert s[..width - 1] == Padded(n / 10, width - 1);
      s
  }

  /** Reading a fixed-width field and writing it back gives the same text. */
  lemma {:induction false} PaddedNumberValue(s: string)
    requires AllDigits(s)
    ensures Padded(NumberValue(s), |s|) == s
    decreases |s|
  {
    if s != [] {
      var init, last := s[..|s| - 1], s[|s| - 1];
      assert AllDigits(init);
      PaddedNumberValue(init);
      var a, d := NumberValue(init), DigitValue(last);
      var n := NumberValue(s);
      assert n == 10 * a + d;
      assert n / 10 == a && n % 10 == d;
      assert DigitChar(d) == last;
      assert Padded(n, |s|) == Padded(a, |s| - 1) + [DigitChar(d)];
      assert s == init + [last];
    }
  }

  // ---------------------------------------------------------------------------
  // Three separated fields
  // ---------------------------------------------------------------------------

  /** Three fixed-width digit fields separated by `sep`, e.g. "20.12.2021" or "16:44:00". */
  datatype Fields = Fields(first: nat, second: nat, third: nat)

  function SplitFields(s: string, sep: char, w1: nat, w2: nat, w3: nat): (r: Option<Fields>)
  {
    if |s| == w1 + 1 + w2 + 1 + w3 && s[w1] == sep && s[w1 + 1 + w2] == sep
       && AllDigits(s[..w1]) && AllDigits(s[w1 + 1..w1 + 1 + w2]) && AllDigits(s[w1 + 2 + w2..])
    then Some(Fields(NumberValue(s[..w1]), NumberValue(s[w1 + 1..w1 + 1 + w2]), NumberValue(s[w1 + 2 + w2..])))
    else None
  }

  function JoinFields(f: Fields, sep: char, w1: nat, w2: nat, w3: nat): (s: string)
    requires f.first < Pow10(w1) && f.second < Pow10(w2) && f.third < Pow10(w3)
    ensures |s| == w1 + 1 + w2 + 1 + w3
  {
    Padded(f.first, w1) + [sep] + Padded(f.second, w2) + [sep] + Padded(f.third, w3)
  }

  lemma JoinThenSplit(f: Fields, sep: char, w1: nat, w2: nat, w3: nat)
    requires f.first < Pow10(w1) && f.second < Pow10(w2) && f.third < Pow10(w3)
    ensures SplitFields(JoinFields(f, sep, w1, w2, w3), sep, w1, w2, w3) == Some(f)
  {
    var a, b, c := Padded(f.first, w1), Padded(f.second, w2), Padded(f.third, w3);
    assert JoinFields(f, sep, w1, w2, w3) == a + [sep] + b + [sep] + c;
    SplitOfJoined(a, b, c, sep);
  }

  /** Three digit strings joined by `sep` split back into the numbers they spell. */
  lemma SplitOfJoined(a: string, b: string, c: string, sep: char)
    requires AllDigits(a) && AllDigits(b) && AllDigits(c)
    ensures SplitFields(a + [sep] + b + [sep] + c, sep, |a|, |b|, |c|)
         == Some(Fields(NumberValue(a), NumberValue(b), NumberValue(c)))
  {
    SlicesOfFive(a, sep, b, sep, c);
  }

  lemma {:induction false} SlicesOfFive<T>(a: seq<T>, x: T, b: seq<T>, y: T, c: seq<T>)
    ensures var s := a + [x] + b + [y] + c;
      s[..|a|] == a && s[|a|] == x && s[|a| + 1..|a| + 1 + |b|] == b
      && s[|a| + 1 + |b|] == y && s[|a| + 2 + |b|..] == c
  {
    var p := a + [x];
    var q := p + b;
    var r := q + [y];
    var s := r + c;
    assert s[..|r|] == r && s[|r|..] == c;
    assert r[..|q|] == q && r[|q|] == y;
    assert q[..|p|] == p && q[|p|..] == b;
    assert p[..|a|] == a && p[|a|] == x;
    assert s[..|a|] == a by {
      assert s[..|a|] == r[..|a|] == q[..|a|] == p[..|a|];
    }
    assert s[|a|] == x by {
      assert s[|a|] == r[|a|] == q[|a|] == p[|a|];
    }
    assert s[|p|..|q|] == b by {
      assert s[|p|..|q|] == r[|p|..|q|] == q[|p|..];
    }
  }

  lemma {:induction false} FiveParts<T>(s: seq<T>, w1: nat, w2: nat)
    requires w1 + 2 + w2 <= |s|
    ensures s == s[..w1] + [s[w1]] + s[w1 + 1..w1 + 1 + w2] + [s[w1 + 1 + w2]] + s[w1 + 2 + w2..]
  {
  }

  lemma SplitThenJoin(s: string, sep: char, w1: nat, w2: nat, w3: nat)
    requires SplitFields(s, sep, w1, w2, w3).Some?
    ensures var f := SplitFields(s, sep, w1, w2, w3).value;
      f.first < Pow10(w1) && f.second < Pow10(w2) && f.third < Pow10(w3)
      && JoinFields(f, sep, w1, w2, w3) == s
  {
    var a, b, c := s[..w1], s[w1 + 1..w1 + 1 + w2], s[w1 + 2 + w2..];
    PaddedNumberValue(a);
    PaddedNumberValue(b);
    PaddedNumberValue(c);
    FiveParts(s, w1, w2);
  }

  // ---------------------------------------------------------------------------
  // The record formats "%d.%m.%Y %H:%M:%S" and "%d.%m.%Y"
  // ---------------------------------------------------------------------------

  function SplitDate(s: string): Option<Fields> {
    SplitFields(s, '.', 2, 2, 4)
  }

  function SplitClock(s: string): Option<Fields> {
    SplitFields(s, ':', 2, 2, 2)
  }

  /** Builds the datetime the fields name, if the constructor accepts it. */
  function Assemble(d: Fields, c: Fields): (r: Option<DateTime>)
    ensures r.Some? ==> Valid(r.value)
  {
    var t := DateTime(d.third, d.second, d.first, c.first, c.second, c.third);
    if Valid(t) then Some(t) else None
  }

  /**
   * `datetime.strptime(s, "%d.%m.%Y %H:%M:%S")`, on the canonical
   * two-digit grammar. None stands for the ValueError strptime raises:
   * a string of another shape, or fields the calendar rejects.
   */
  function ParseTimestamp(s: string): (r: Option<DateTime>)
    ensures r.Some? ==> Valid(r.value)
  {
    if |s| != 19 || s[10] != ' ' then None
    else
      match (SplitDate(s[..10]), SplitClock(s[11..]))
      case (Some(d), Some(c)) => Assemble(d, c)
      case _ => None
  }

  /** `datetime.strptime(s, "%d.%m.%Y")`: the date at 00:00:00. */
  function ParseDate(s: string): (r: Option<DateTime>)
    ensures r.Some? ==> Valid(r.value) && r.value.hour == 0 && r.value.minute == 0 && r.value.second == 0
  {
    match SplitDate(s)
    case Some(d) => Assemble(d, Fields(0, 0, 0))
    case None => None
  }

  /** `t.strftime("%d.%m.%Y")`. */
  function FormatDate(t: DateTime): (s: string)
    requires Valid(t)
    ensures |s| == 10
  {
    JoinFields(Fields(t.day, t.month, t.year), '.', 2, 2, 4)
  }

  /** `t.strftime("%d.%m.%Y %H:%M:%S")`. */
  function FormatTimestamp(t: DateTime): (s: string)
    requires Valid(t)
    ensures |s| == 19
  {
    FormatDate(t) + " " + JoinFields(Fields(t.hour, t.minute, t.second), ':', 2, 2, 2)
  }

  /** Every valid timestamp, written in the record format, parses back to itself. */
  lemma FormatThenParse(t: DateTime)
    requires Valid(t)
    ensures ParseTimestamp(FormatTimestamp(t)) == Some(t)
  {
    var d, c := Fields(t.day, t.month, t.year), Fields(t.hour, t.minute, t.second);
    JoinThenSplit(d, '.', 2, 2, 4);
    JoinThenSplit(c, ':', 2, 2, 2);
    var s := FormatTimestamp(t);
    assert s[..10] == FormatDate(t);
    assert s[11..] == JoinFields(c, ':', 2, 2, 2);
  }

  /** A string that parses is already in canonical form, so parsing is injective. */
  lemma ParseThenFormat(s: string)
    requires ParseTimestamp(s).Some?
    ensures FormatTimestamp(ParseTimestamp(s).value) == s
  {
    var date, clock := s[..10], s[11..];
    var d, c := SplitDate(date).value, SplitClock(clock).value;
    var t := ParseTimestamp(s).value;
    assert t == DateTime(d.third, d.second, d.first, c.first, c.second, c.third);
    SplitThenJoin(date, '.', 2, 2, 4);
    SplitThenJoin(clock, ':', 2, 2, 2);
    assert FormatDate(t) == date;
    assert JoinFields(Fields(t.hour, t.minute, t.second), ':', 2, 2, 2) == clock;
    assert s == date + s[10..];
    assert s[10..] == [s[10]] + clock;
  }

  /** The date-only format round-trips to midnight of the same day. */
  lemma FormatDateThenParse(t: DateTime)
    requires Valid(t)
    ensures ParseDate(FormatDate(t)) == Some(t.(hour := 0, minute := 0, second := 0))
  {
    JoinThenSplit(Fields(t.day, t.month, t.year), '.', 2, 2, 4);
  }

  // ---------------------------------------------------------------------------
  // Month start and calendar-month offsets
  // ---------------------------------------------------------------------------

  /** `t.replace(day=1)`: the clock time of `t` is kept. */
  function MonthStart(t: DateTime): (r: DateTime)
    requires Valid(t)
    ensures Valid(r)
    ensures AtOrBefore(r, t)
    ensures r.year == t.year && r.month == t.month && r.day == 1
    ensures r.hour == t.hour && r.minute == t.minute && r.second == t.second
  {
    t.(day := 1)
  }

  /** Months counted from January of year 0. */
  function MonthIndex(t: DateTime): int {
    t.year * 12 + (t.month - 1)
  }

  function Min(a: int, b: int): int {
    if a <= b then a else b
  }

  /**
   * `t - pd.DateOffset(months=n)`: the same day-of-month `n` calendar
   * months earlier, clamped to the last day of the target month, same
   * clock time. None when the target falls before year 1.
   */
  function MonthsBefore(t: DateTime, n: nat): (r: Option<DateTime>)
    requires Valid(t)
    ensures r.None? <==> MonthIndex(t) - n < 12 * MinYear
    ensures r.Some? ==> Valid(r.value) && AtOrBefore(r.value, t)
    ensures r.Some? ==> MonthIndex(r.value) == MonthIndex(t) - n
    ensures r.Some? ==> r.value.day == Min(t.day, DaysInMonth(r.value.year, r.value.month))
    ensures r.Some? ==> r.value.hour == t.hour && r.value.minute == t.minute && r.value.second == t.second
  {
    var idx := MonthIndex(t) - n;
    var y, m := idx / 12, idx % 12 + 1;
    if y < MinYear then None
    else Some(DateTime(y, m, Min(t.day, DaysInMonth(y, m)), t.hour, t.minute, t.second))
  }

  /** The clamping at work: 31 May minus three months is the last day of February. */
  lemma MonthsBeforeClampsToFebruary()
    ensures MonthsBefore(DateTime(2021, 5, 31, 0, 0, 0), 3) == Some(DateTime(2021, 2, 28, 0, 0, 0))
    ensures MonthsBefore(DateTime(2020, 5, 31, 0, 0, 0), 3) == Some(DateTime(2020, 2, 29, 0, 0, 0))
    ensures MonthsBefore(DateTime(2021, 12, 20, 0, 0, 0), 3) == Some(DateTime(2021, 9, 20, 0, 0, 0))
  {
  }

  // ---------------------------------------------------------------------------
  // Day numbers and the day of the week
  // ---------------------------------------------------------------------------

  /** Days in the years before `y`, counting from 1 January of year 1. */
  function DaysBeforeYear(y: int): int {
    var p := y - 1;
    p * 365 + p / 4 - p / 100 + p / 400
  }

  /** Days in the months of year `y` before month `m`. */
  function DaysBeforeMonth(y: int, m: int): int {
    var common :=
      if m <= 1 then 0 else if m == 2 then 31 else if m == 3 then 59 else if m == 4 then 90
      else if m == 5 then 120 else if m == 6 then 151 else if m == 7 then 181 else if m == 8 then 212
      else if m == 9 then 243 else if m == 10 then 273 else if m == 11 then 304 else 334;
    if m > 2 && IsLeapYear(y) then common + 1 else common
  }

  /** `date.toordinal()`: 1 January of year 1 is day 1. */
  function Ordinal(t: DateTime): int {
    DaysBeforeYear(t.year) + DaysBeforeMonth(t.year, t.month) + t.day
  }

  /** `dt.dayofweek` / `date.weekday()`: Monday is 0, Sunday is 6. */
  function Weekday(t: DateTime): (w: int)
    ensures 0 <= w < 7
  {
    (Ordinal(t) + 6) % 7
  }

  /** The calendar day after `t`, same clock time. */
  function NextDay(t: DateTime): (r: DateTime)
    requires Valid(t)
  {
    if t.day < DaysInMonth(t.year, t.month) then t.(day := t.day + 1)
    else if t.month < 12 then t.(month := t.month + 1, day := 1)
    else t.(year := t.year + 1, month := 1, day := 1)
  }

  lemma {:induction false} DivStep(y: int)
    requires y >= 1
    ensures y / 4 == (y - 1) / 4 + (if y % 4 == 0 then 1 else 0)
    ensures y / 100 == (y - 1) / 100 + (if y % 100 == 0 then 1 else 0)
    ensures y / 400 == (y - 1) / 400 + (if y % 400 == 0 then 1 else 0)
  {
  }

  lemma {:induction false} YearLength(y: int)
    requires y >= 1
    ensures DaysBeforeYear(y + 1) == DaysBeforeYear(y) + DaysBeforeMonth(y, 12) + 31
  {
    DivStep(y);
    var following, current := DaysBeforeYear(y + 1), DaysBeforeYear(y);
    assert following == y * 365 + y / 4 - y / 100 + y / 400;
    assert current == (y - 1) * 365 + (y - 1) / 4 - (y - 1) / 100 + (y - 1) / 400;
    var leap := if IsLeapYear(y) then 1 else 0;
    assert following - current == 365 + leap;
    assert DaysBeforeMonth(y, 12) == 334 + leap;
  }

  /** Consecutive calendar days have consecutive day numbers. */
  lemma NextDayOrdinal(t: DateTime)
    requires Valid(t)
    ensures t.year < MaxYear || t.month < 12 || t.day < 31 ==> Valid(NextDay(t))
    ensures Ordinal(NextDay(t)) == Ordinal(t) + 1
  {
    if t.day == DaysInMonth(t.year, t.month) && t.month == 12 {
      YearLength(t.year);
    }
  }

  /** So the weekday advances by one each day, wrapping from Sunday to Monday. */
  lemma NextDayWeekday(t: DateTime)
    requires Valid(t)
    ensures Weekday(NextDay(t)) == (Weekday(t) + 1) % 7
  {
    NextDayOrdinal(t);
    ModStep(Ordinal(t) + 6);
  }

  lemma {:induction false} ModStep(a: int)
    ensures (a + 1) % 7 == (a % 7 + 1) % 7
  {
  }

  /** Anchors the numbering: 20 December 2021 was a Monday. */
  lemma WeekdayAnchor()
    ensures Weekday(DateTime(2021, 12, 20, 0, 0, 0)) == 0
    ensures Weekday(DateTime(2021, 12, 26, 23, 59, 59)) == 6
  {
  }
}
