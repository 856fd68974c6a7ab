/**
 * Stand-ins for the Foundation and DecimalTime types that TimeKeeper works on.
 * Nothing here computes: the calendar's component extraction is carried as a
 * function-valued field, so every property proved about the model holds for
 * any calendar Foundation could supply.
 */
module Foundation {
  import opened Wrappers

  /** An instant (Foundation's `Date`), as a count of nanoseconds since the reference date. */
  datatype Date = Date(nanosecondsSinceReference: int)

  /**
   * The components the calendar extracts from a date (year, month, day,
   * weekday, hour, minute, second and nanosecond): every component is
   * optional, and an absent one means the calendar could not resolve it.
   */
  datatype Components = Components(
    year: Option<int>,
    month: Option<int>,
    day: Option<int>,
    weekday: Option<int>,
    hour: Option<int>,
    minute: Option<int>,
    second: Option<int>,
    nanosecond: Option<int>)

  /**
   * Foundation's `Calendar`, reduced to what TimeKeeper reads from it: the
   * component extractor and the locale's symbol tables.
   */
  datatype Calendar = Calendar(
    dateComponents: Date -> Components,
    monthSymbols: seq<string>,
    shortMonthSymbols: seq<string>,
    weekdaySymbols: seq<string>,
    shortWeekdaySymbols: seq<string>,
    amSymbol: string,
    pmSymbol: string)

  /**
   * The value type of the external DecimalTime library: the day divided into
   * 10 decimal hours of 100 decimal minutes of 100 decimal seconds.
   */
  datatype DecimalTime = DecimalTime(
    hours: int,
    minutes: int,
    seconds: int,
    milliseconds: int,
    nanoseconds: int)

  /** A calendar whose symbol tables have the Gregorian sizes: 12 months and 7 weekdays. */
  predicate GregorianTables(cal: Calendar) {
    && |cal.monthSymbols| == 12
    && |cal.shortMonthSymbols| == 12
    && |cal.weekdaySymbols| == 7
    && |cal.shortWeekdaySymbols| == 7
  }
}
