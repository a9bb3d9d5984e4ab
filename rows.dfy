/** The records `scrap_tw` handles: the bars the price loader returns and
    the tagged contract rows it builds from them (setup.py:124-131). A
    DataFrame is modelled as a sequence of row records. */
module Rows {
  import opened Results

  /** Prices are floating-point in the source; the model carries them from
      a bar to its row and never computes with them. */
  type Price = real

  /** A pandas Timestamp broken into its fields; `utcOffset` is None for a
      naive (time-zone-free) value. */
  datatype Timestamp = Timestamp(
    year: int, month: int, day: int,
    hour: int, minute: int, second: int, microsecond: int,
    utcOffset: Option<int>)

  /** One daily bar as the price loader returns it. */
  datatype Bar = Bar(time: Timestamp, open: Price, high: Price, low: Price, close: Price)

  /** One stored observation of one contract, with the columns of the
      destination table (setup.py:10-33). */
  datatype ContractRow = ContractRow(
    time: Timestamp, expMonth: string, expYear: int,
    open: Price, high: Price, low: Price, close: Price,
    marketYear: Option<string>)

  /** A naive timestamp at midnight: a calendar date and nothing else. */
  predicate IsMidnightDate(t: Timestamp) {
    t.hour == 0 && t.minute == 0 && t.second == 0 && t.microsecond == 0 && t.utcOffset.None?
  }

  predicate SameCalendarDay(a: Timestamp, b: Timestamp) {
    a.year == b.year && a.month == b.month && a.day == b.day
  }

  /** `datetime(x.year, x.month, x.day)` (setup.py:126): keeps the calendar
      day, drops the time of day and the time zone. */
  function ToDate(t: Timestamp): (d: Timestamp)
    ensures IsMidnightDate(d) && SameCalendarDay(d, t)
  {
    Timestamp(t.year, t.month, t.day, 0, 0, 0, 0, None)
  }

  /** A midnight date is the only one on its calendar day, so truncating it
      again changes nothing. */
  lemma ToDateIdempotent(t: Timestamp)
    ensures ToDate(ToDate(t)) == ToDate(t)
    ensures IsMidnightDate(t) ==> ToDate(t) == t
  {
  }
}
