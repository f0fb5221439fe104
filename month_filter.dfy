/**
 * `filtering_transactions_by_date` (src/utils.py): the transactions of the
 * reference moment's calendar month, from the first of the month at the
 * reference's clock time up to the reference itself.
 */
module MonthFilter {
  import opened Wrappers
  import opened DateTimes
  import opened Records
  import opened Seqs

  /** The text the function returns when it catches a ValueError. */
  const NoTransactions := "Нет транзакций за этот месяц или дата введена неверна"

  /** The three ways the call ends: the list, the caught-error text, or an escaping exception. */
  datatype Outcome = Transactions(rows: seq<Record>) | Message(text: string) | Raises(error: Exception)

  /**
   * `datetime.strptime(cell, "%d.%m.%Y %H:%M:%S")` on a record's date:
   * a str that does not parse is a ValueError; anything that is not a str
   * (None from a missing key, a pandas value) is a TypeError.
   */
  function Strptime(c: DateCell): (r: Result<DateTime, Exception>)
    ensures r.Success? ==> Valid(r.value)
    ensures r.Failure? ==> r.error == ValueError || r.error == TypeError
    ensures r == Failure(TypeError) <==> !c.Text?
  {
    match c
    case Text(s) => (match ParseTimestamp(s) case Some(t) => Success(t) case None => Failure(ValueError))
    case _ => Failure(TypeError)
  }

  /** The exception met first when parsing the dates of `rows` in order, if any. */
  function FirstDateFailure(rows: seq<Record>): (e: Option<Exception>)
    ensures e.None? <==> forall i | 0 <= i < |rows| :: Strptime(rows[i].operationDate).Success?
    ensures e.Some? ==> e.value == ValueError || e.value == TypeError
    decreases |rows|
  {
    if rows == [] then None
    else
      match FirstDateFailure(rows[..|rows| - 1])
      case Some(e) => Some(e)
      case None =>
        match Strptime(rows[|rows| - 1].operationDate)
        case Failure(e) => Some(e)
        case Success(_) => None
  }

  /** The failure reported is that of the first record whose date does not parse. */
  lemma {:induction false} FirstDateFailureIsFirst(rows: seq<Record>)
    requires FirstDateFailure(rows).Some?
    ensures exists i | 0 <= i < |rows| ::
      Strptime(rows[i].operationDate) == Failure(FirstDateFailure(rows).value)
      && forall j | 0 <= j < i :: Strptime(rows[j].operationDate).Success?
    decreases |rows|
  {
    var init := rows[..|rows| - 1];
    if FirstDateFailure(init).Some? {
      FirstDateFailureIsFirst(init);
      var i :| 0 <= i < |init| && Strptime(init[i].operationDate) == Failure(FirstDateFailure(init).value)
               && forall j | 0 <= j < i :: Strptime(init[j].operationDate).Success?;
      assert rows[i] == init[i];
      assert forall j | 0 <= j < i :: rows[j] == init[j];
    } else {
      var i := |rows| - 1;
      assert forall j | 0 <= j < i :: rows[j] == init[j];
    }
  }

  /** Once a prefix has failed, the whole sequence fails the same way. */
  lemma {:induction false} FirstDateFailureOfPrefix(rows: seq<Record>, k: nat)
    requires k <= |rows|
    requires FirstDateFailure(rows[..k]).Some?
    ensures FirstDateFailure(rows) == FirstDateFailure(rows[..k])
    decreases |rows| - k
  {
    if k < |rows| {
      assert FirstDateFailure(rows[..k + 1]) == FirstDateFailure(rows[..k]) by {
        assert rows[..k + 1][..k] == rows[..k];
      }
      FirstDateFailureOfPrefix(rows, k + 1);
    } else {
      assert rows[..k] == rows;
    }
  }

  /** The window `start_month <= t <= date_string`, with `start_month = date_string.replace(day=1)`. */
  predicate MonthSoFar(t: DateTime, reference: DateTime)
    requires Valid(reference)
  {
    AtOrBefore(MonthStart(reference), t) && AtOrBefore(t, reference)
  }

  /** The record test applied inside the loop, as a value for `Filter`. */
  function InMonthSoFar(reference: DateTime): Record -> bool
    requires Valid(reference)
  {
    (x: Record) => Strptime(x.operationDate).Success? && MonthSoFar(Strptime(x.operationDate).value, reference)
  }

  /**
   * The loop over the records. The result is the list only when the
   * reference and every record's date parse, and then it is exactly the
   * records inside the window, in their original order (the lemmas on
   * `Filter` spell that out). One unparsable date makes the whole call
   * return the error text; a date that is not a str escapes as TypeError.
   */
  method FilteringTransactionsByDate(dateTime: string, transactions: seq<Record>) returns (out: Outcome)
    ensures out.Transactions? <==> ParseTimestamp(dateTime).Some? && FirstDateFailure(transactions).None?
    ensures out.Raises? <==> ParseTimestamp(dateTime).Some? && FirstDateFailure(transactions) == Some(TypeError)
    ensures out.Raises? ==> out.error == TypeError
    ensures out.Message? ==> out.text == NoTransactions
    ensures out.Transactions? ==> out.rows == Filter(transactions, InMonthSoFar(ParseTimestamp(dateTime).value))
  {
    var parsed := ParseTimestamp(dateTime);
    if parsed.None? {
      return Message(NoTransactions);
    }
    var reference := parsed.value;
    var newList: seq<Record> := [];
    var i := 0;
    while i < |transactions|
      invariant 0 <= i <= |transactions|
      invariant FirstDateFailure(transactions[..i]).None?
      invariant newList == Filter(transactions[..i], InMonthSoFar(reference))
    {
      var x := transactions[i];
      assert transactions[..i + 1] == transactions[..i] + [x];
      assert transactions[..i + 1][..i] == transactions[..i];
      var t := Strptime(x.operationDate);
      if t.Failure? {
        FirstDateFailureOfPrefix(transactions, i + 1);
        if t.error == ValueError {
          return Message(NoTransactions);
        }
        return Raises(t.error);
      }
      if MonthSoFar(t.value, reference) {
        newList := newList + [x];
      }
      i := i + 1;
    }
    assert transactions[..i] == transactions;
    return Transactions(newList);
  }

  /** Everything in the window lies in the reference's own calendar month, no later than it. */
  lemma MonthSoFarIsThisMonth(t: DateTime, reference: DateTime)
    requires Valid(reference)
    requires MonthSoFar(t, reference)
    ensures t.year == reference.year && t.month == reference.month && t.day <= reference.day
  {
  }

  /** Both ends are inclusive: the reference itself and the month start are in the window. */
  lemma MonthSoFarBoundsInclusive(reference: DateTime)
    requires Valid(reference)
    ensures MonthSoFar(reference, reference)
    ensures MonthSoFar(MonthStart(reference), reference)
  {
  }

  /**
   * The lower bound keeps the reference's clock time: on the first of the
   * month, a record earlier in the day than the reference's time is out.
   */
  lemma FirstOfMonthBeforeClockExcluded(t: DateTime, reference: DateTime)
    requires Valid(reference)
    requires t.year == reference.year && t.month == reference.month && t.day == 1
    requires !ClockAtOrBefore(reference, t)
    ensures !MonthSoFar(t, reference)
  {
  }
}
