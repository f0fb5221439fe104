/**
 * One row of the bank's operations spreadsheet, as the analysis functions
 * receive it (a dict from `to_dict(orient="records")` or a DataFrame row).
 */
module Records {
  import opened Wrappers
  import opened DateTimes

  /** Amounts of money in kopecks, hundredths of a rouble. */
  type Kopecks = int

  /**
   * The 'Дата операции' cell: text as read from the spreadsheet, a missing
   * value, or, once pandas has converted the column, a timestamp or NaT.
   */
  datatype DateCell = Missing | Text(text: string) | Stamp(time: DateTime) | NotATime

  /**
   * A numeric cell: the key is absent from the record, the value is NaN
   * (an empty spreadsheet cell, which `to_dict` keeps as NaN under its key),
   * or an amount.
   */
  datatype Amount = Absent | NotANumber | Sum(kopecks: Kopecks)

  datatype Record = Record(
    operationDate: DateCell,           // 'Дата операции'
    paymentDate: Option<string>,       // 'Дата платежа'
    category: Option<string>,          // 'Категория'
    description: Option<string>,       // 'Описание'
    cardNumber: Option<string>,        // 'Номер карты'; None when absent or not a str
    payment: Amount,                   // 'Сумма платежа'
    operationAmount: Option<Kopecks>,  // 'Сумма операции'; None when absent or NaN
    roundedAmount: Amount              // 'Сумма операции с округлением'
  )

  /** The Python exceptions the analysed functions let escape. */
  datatype Exception = ValueError | TypeError | KeyError | OutOfBoundsDatetime

  function Abs(x: int): (r: nat)
    ensures r == x || r == -x
  {
    if x < 0 then -x else x
  }
}
