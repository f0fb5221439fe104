/** `greetings` (src/utils.py): a greeting chosen by the hour of a timestamp. */
module Greeting {
  import opened Wrappers
  import opened DateTimes

  const GoodMorning := "Доброе утро"
  const GoodDay := "Добрый день"
  const GoodEvening := "Добрый вечер"
  const GoodNight := "Доброй ночи"
  const WrongDate := "Неправильная дата"

  /**
   * The if/elif chain on the parsed hour. None is the Python function
   * falling off the end of the chain and returning None; the contract shows
   * that never happens: every parsed hour lands in exactly one bucket, and a
   * string that does not parse gets the error text.
   */
  function Greetings(dateTime: string): (r: Option<string>)
    ensures r.Some?
    ensures ParseTimestamp(dateTime).None? ==> r == Some(WrongDate)
    ensures ParseTimestamp(dateTime).Some? ==>
      var h := ParseTimestamp(dateTime).value.hour;
      (r == Some(GoodMorning) <==> 5 <= h < 12)
      && (r == Some(GoodDay) <==> 12 <= h < 18)
      && (r == Some(GoodEvening) <==> 18 <= h <= 23)
      && (r == Some(GoodNight) <==> 0 <= h < 5)
  {
    match ParseTimestamp(dateTime)
    case None => Some(WrongDate)
    case Some(t) =>
      if 5 <= t.hour < 12 then Some(GoodMorning)
      else if 12 <= t.hour < 18 then Some(GoodDay)
      else if 18 <= t.hour <= 23 then Some(GoodEvening)
      else if 0 <= t.hour < 5 then Some(GoodNight)
      else None
  }

  /** Strings outside the record format, including the ISO form, get the error text. */
  lemma GreetingsRejectsOtherFormats()
    ensures Greetings("12345") == Some(WrongDate)
    ensures Greetings("2021-12-31 16:44:00") == Some(WrongDate)
  {
    assert "2021-12-31 16:44:00"[..10][2] != '.';
  }
}
