/**
 * The computed properties of `TimeKeeper` that derive a displayed field from
 * the date's components and the calendar's symbol tables. Each is a guard on
 * an optional component followed by a small rule; none of them changes state.
 * Locale operations the properties call are parameters: `capitalize` stands
 * for `String.capitalized` and `formatted` for the long-style
 * `DateFormatter` text of the date.
 */
module Fields {
  import opened Wrappers
  import opened Foundation
  import Text

  /** Half of the day on a 12-hour clock. */
  datatype Period = AM | PM

  /** Alternating label of consecutive seconds. */
  datatype TickTock = Tick | Tock

  /* ---------------------------------------------------------------- Hours */

  /**
   * The 12-hour reading of a 24-hour value: midnight reads 12, the morning
   * and noon keep their value, the afternoon drops 12. The `%` applies only
   * to values above 12, where Swift's truncating remainder and Dafny's agree.
   */
  function Hour12Of(hour: int): (h: int)
    ensures 0 <= hour <= 23 ==> 1 <= h <= 12
    ensures hour >= 0 ==> h % 12 == hour % 12
  {
    if hour == 0 then 12 else if hour <= 12 then hour else hour % 12
  }

  /** `hour12`: absent exactly when the hour component is. */
  function Hour12(c: Components): (r: Option<int>)
    ensures r.None? <==> c.hour.None?
    ensures r.Some? && 0 <= c.hour.value <= 23 ==> 1 <= r.value <= 12
    ensures r.Some? && c.hour.value >= 0 ==> r.value % 12 == c.hour.value % 12
  {
    if c.hour.None? then None else Some(Hour12Of(c.hour.value))
  }

  /** `period`'s rule: AM exactly on [0, 12), PM for every other value. */
  function PeriodOf(hour: int): (p: Period)
    ensures p == AM <==> 0 <= hour < 12
  {
    if hour >= 0 && hour < 12 then AM else PM
  }

  /** `period`: absent exactly when the hour component is. */
  function PeriodOfDay(c: Components): (r: Option<Period>)
    ensures r.None? <==> c.hour.None?
    ensures r == Some(AM) <==> c.hour.Some? && 0 <= c.hour.value < 12
    ensures r == Some(PM) <==> c.hour.Some? && !(0 <= c.hour.value < 12)
  {
    if c.hour.None? then None else Some(PeriodOf(c.hour.value))
  }

  /** `periodString`: the calendar's AM symbol for AM, its PM symbol for PM. */
  function PeriodString(c: Components, cal: Calendar): (r: Option<string>)
    ensures r.None? <==> c.hour.None?
    ensures PeriodOfDay(c) == Some(AM) ==> r == Some(cal.amSymbol)
    ensures PeriodOfDay(c) == Some(PM) ==> r == Some(cal.pmSymbol)
  {
    match PeriodOfDay(c)
    case None => None
    case Some(p) => Some(if p == AM then cal.amSymbol else cal.pmSymbol)
  }

  /**
   * Reading a 12-hour clock: the hour on a 24-hour clock that a 12-hour value
   * and its period denote. Partner of Hour12Of and PeriodOf.
   */
  function Hour24From(hour12: int, p: Period): (hour: int)
    requires 1 <= hour12 <= 12
    ensures 0 <= hour <= 23
    ensures PeriodOf(hour) == p
  {
    match p
    case AM => if hour12 == 12 then 0 else hour12
    case PM => if hour12 == 12 then 12 else hour12 + 12
  }

  /** The 12-hour value and the period together lose nothing of a 24-hour value. */
  lemma Hour12RoundTrip(hour: int)
    requires 0 <= hour <= 23
    ensures Hour24From(Hour12Of(hour), PeriodOf(hour)) == hour
  {
  }

  /** Every 12-hour reading with its period is produced by exactly one hour of the day. */
  lemma Hour12Onto(hour12: int, p: Period)
    requires 1 <= hour12 <= 12
    ensures Hour12Of(Hour24From(hour12, p)) == hour12
  {
  }

  /* --------------------------------------------------------- Symbol names */

  /**
   * The bounds-checked lookup shared by the four name properties: the
   * component's value is 1-based, so the index is value - 1, and an index
   * outside the table gives no name instead of an out-of-bounds access.
   */
  function SymbolName(symbols: seq<string>, value: Option<int>, capitalize: string -> string): (r: Option<string>)
    ensures r.Some? <==> value.Some? && 1 <= value.value <= |symbols|
    ensures r.Some? ==> r.value == capitalize(symbols[value.value - 1])
  {
    if value.None? then None
    else
      var index := value.value - 1;
      if index >= 0 && index < |symbols| then Some(capitalize(symbols[index])) else None
  }

  /** `monthName`: the capitalized full month symbol of the month component. */
  function MonthName(c: Components, cal: Calendar, capitalize: string -> string): (r: Option<string>)
    ensures r.Some? <==> c.month.Some? && 1 <= c.month.value <= |cal.monthSymbols|
    ensures r.Some? ==> r.value == capitalize(cal.monthSymbols[c.month.value - 1])
  {
    SymbolName(cal.monthSymbols, c.month, capitalize)
  }

  /** `monthNameShort`: the capitalized short month symbol of the month component. */
  function MonthNameShort(c: Components, cal: Calendar, capitalize: string -> string): (r: Option<string>)
    ensures r.Some? <==> c.month.Some? && 1 <= c.month.value <= |cal.shortMonthSymbols|
    ensures r.Some? ==> r.value == capitalize(cal.shortMonthSymbols[c.month.value - 1])
  {
    SymbolName(cal.shortMonthSymbols, c.month, capitalize)
  }

  /** `weekdayName`: the capitalized full weekday symbol; weekday 1 is the table's first entry. */
  function WeekdayName(c: Components, cal: Calendar, capitalize: string -> string): (r: Option<string>)
    ensures r.Some? <==> c.weekday.Some? && 1 <= c.weekday.value <= |cal.weekdaySymbols|
    ensures r.Some? ==> r.value == capitalize(cal.weekdaySymbols[c.weekday.value - 1])
  {
    SymbolName(cal.weekdaySymbols, c.weekday, capitalize)
  }

  /** `weekdayNameShort`: the capitalized short weekday symbol of the weekday component. */
  function WeekdayNameShort(c: Components, cal: Calendar, capitalize: string -> string): (r: Option<string>)
    ensures r.Some? <==> c.weekday.Some? && 1 <= c.weekday.value <= |cal.shortWeekdaySymbols|
    ensures r.Some? ==> r.value == capitalize(cal.shortWeekdaySymbols[c.weekday.value - 1])
  {
    SymbolName(cal.shortWeekdaySymbols, c.weekday, capitalize)
  }

  /**
   * With Gregorian-sized tables, a month or weekday that the calendar
   * resolved within its range always has both of its names.
   */
  lemma NamesPresentInRange(c: Components, cal: Calendar, capitalize: string -> string)
    requires GregorianTables(cal)
    ensures c.month.Some? && 1 <= c.month.value <= 12 ==>
      MonthName(c, cal, capitalize).Some? && MonthNameShort(c, cal, capitalize).Some?
    ensures c.weekday.Some? && 1 <= c.weekday.value <= 7 ==>
      WeekdayName(c, cal, capitalize).Some? && WeekdayNameShort(c, cal, capitalize).Some?
  {
  }

  /* ----------------------------------------------------------------- Date */

  /**
   * `dateString`: the weekday name and ", " before the formatted date when the
   * name is present and non-empty; the formatted date alone otherwise.
   */
  function DateString(c: Components, cal: Calendar, capitalize: string -> string, formatted: string): (r: string)
    ensures |r| >= |formatted| && r[|r| - |formatted|..] == formatted
    ensures var w := WeekdayName(c, cal, capitalize);
      r == formatted <==> w.None? || w.value == ""
    ensures var w := WeekdayName(c, cal, capitalize);
      r != formatted ==> r[..|r| - |formatted|] == w.value + ", "
  {
    var w := WeekdayName(c, cal, capitalize);
    var day := if w.Some? then w.value else "";
    day + (if day == "" then "" else ", ") + formatted
  }

  /* --------------------------------------------------------- Milliseconds */

  /** Swift's integer `/` for a positive divisor: the quotient rounded toward zero. */
  function TruncDiv(a: int, b: int): (q: int)
    requires b > 0
    ensures a >= 0 ==> q * b <= a < (q + 1) * b
    ensures a < 0 ==> (q - 1) * b < a <= q * b
  {
    if a >= 0 then a / b else -((-a) / b)
  }

  /** `millisecond`: the nanosecond component divided by 1,000,000, toward zero. */
  function Millisecond(c: Components): (r: Option<int>)
    ensures r.None? <==> c.nanosecond.None?
    ensures r.Some? && c.nanosecond.value >= 0 ==>
      r.value * 1_000_000 <= c.nanosecond.value < (r.value + 1) * 1_000_000
    ensures r.Some? && c.nanosecond.value < 0 ==>
      (r.value - 1) * 1_000_000 < c.nanosecond.value <= r.value * 1_000_000
  {
    if c.nanosecond.None? then None else Some(TruncDiv(c.nanosecond.value, 1_000_000))
  }

  /** A nanosecond within a second gives a millisecond within a second. */
  lemma MillisecondInRange(c: Components)
    requires c.nanosecond.Some? && 0 <= c.nanosecond.value <= 999_999_999
    ensures Millisecond(c).Some? && 0 <= Millisecond(c).value <= 999
  {
    var r := Millisecond(c).value;
    assert r * 1_000_000 <= c.nanosecond.value < (r + 1) * 1_000_000;
  }

  /* ------------------------------------------------------------ Tick-tock */

  /**
   * The parity rule both `tickTock` properties share: a nonzero even second
   * ticks, every other second (zero included) tocks; no second, no label.
   */
  function TickTockOf(second: Option<int>): (r: Option<TickTock>)
    ensures r.None? <==> second.None?
    ensures r == Some(Tick) <==> second.Some? && second.value != 0 && second.value % 2 == 0
    ensures r == Some(Tock) <==> second.Some? && (second.value == 0 || second.value % 2 != 0)
  {
    if second.None? then None
    else Some(if second.value != 0 && second.value % 2 == 0 then Tick else Tock)
  }

  /** `tickTock` on the conventional second component. */
  function SecondTickTock(c: Components): (r: Option<TickTock>)
    ensures r.None? <==> c.second.None?
    ensures r == Some(Tick) <==> c.second.Some? && c.second.value != 0 && c.second.value % 2 == 0
  {
    TickTockOf(c.second)
  }

  /** `tickTock` on the decimal second of the decimal time. */
  function DecimalTickTock(d: Option<DecimalTime>): (r: Option<TickTock>)
    ensures r.None? <==> d.None?
    ensures r == Some(Tick) <==> d.Some? && d.value.seconds != 0 && d.value.seconds % 2 == 0
  {
    TickTockOf(if d.Some? then Some(d.value.seconds) else None)
  }

  /** Past zero, consecutive seconds always carry different labels. */
  lemma TickTockAlternates(second: int)
    requires second >= 1
    ensures TickTockOf(Some(second)) != TickTockOf(Some(second + 1))
  {
  }

  /**
   * Where alternation breaks: the last second of a minute and the first two
   * of the next (59, 0 and 1) all tock, so the label repeats twice a minute.
   */
  lemma TickTockRepeatsAtMinute()
    ensures TickTockOf(Some(59)) == TickTockOf(Some(0)) == TickTockOf(Some(1)) == Some(Tock)
  {
  }

  /* ------------------------------------------------------ String wrappers */

  /** Padded text of an optional value, absent when the value is. */
  function PaddedText(v: Option<int>): (r: Option<string>)
    ensures r.None? <==> v.None?
    ensures r.Some? ==> Text.IsIntText(r.value) && Text.ParseInt(r.value) == v.value
    ensures r.Some? && 0 <= v.value < 100 ==> |r.value| == 2
    ensures r.Some? && v.value >= 0 ==> Text.AllDigits(r.value) && |r.value| >= 2
    ensures r.Some? && v.value >= 10 ==> r.value[0] != '0'
  {
    if v.None? then None
    else
      Text.PadTimeUnitRoundTrip(v.value);
      Some(Text.PadTimeUnit(v.value))
  }

  /** `hour12String`: the unpadded decimal text of `hour12`. */
  function Hour12String(c: Components): (r: Option<string>)
    ensures r.None? <==> c.hour.None?
    ensures r.Some? ==> Text.IsIntText(r.value) && Text.ParseInt(r.value) == Hour12(c).value
    ensures r.Some? && 0 <= c.hour.value <= 23 ==> 1 <= |r.value| <= 2
    ensures r.Some? && Hour12(c).value > 0 ==> Text.AllDigits(r.value) && r.value[0] != '0'
  {
    match Hour12(c)
    case None => None
    case Some(h) =>
      Text.IntToStringRoundTrip(h);
      Some(Text.IntToString(h))
  }

  /** `hour24String`: the padded hour component. */
  function Hour24String(c: Components): (r: Option<string>)
    ensures r.None? <==> c.hour.None?
    ensures r.Some? ==> Text.IsIntText(r.value) && Text.ParseInt(r.value) == c.hour.value
    ensures r.Some? && 0 <= c.hour.value < 100 ==> |r.value| == 2
    ensures r.Some? && c.hour.value >= 0 ==> Text.AllDigits(r.value)
  {
    PaddedText(c.hour)
  }

  /** `paddedMinute`: the padded minute component. */
  function PaddedMinute(c: Components): (r: Option<string>)
    ensures r.None? <==> c.minute.None?
    ensures r.Some? ==> Text.IsIntText(r.value) && Text.ParseInt(r.value) == c.minute.value
    ensures r.Some? && 0 <= c.minute.value < 100 ==> |r.value| == 2
    ensures r.Some? && c.minute.value >= 0 ==> Text.AllDigits(r.value)
  {
    PaddedText(c.minute)
  }

  /** `paddedSecond`: the padded second component. */
  function PaddedSecond(c: Components): (r: Option<string>)
    ensures r.None? <==> c.second.None?
    ensures r.Some? ==> Text.IsIntText(r.value) && Text.ParseInt(r.value) == c.second.value
    ensures r.Some? && 0 <= c.second.value < 100 ==> |r.value| == 2
    ensures r.Some? && c.second.value >= 0 ==> Text.AllDigits(r.value)
  {
    PaddedText(c.second)
  }

  /** `hourDecimalString`: the padded decimal hour. */
  function HourDecimalString(d: Option<DecimalTime>): (r: Option<string>)
    ensures r.None? <==> d.None?
    ensures r.Some? ==> Text.IsIntText(r.value) && Text.ParseInt(r.value) == d.value.hours
    ensures r.Some? && 0 <= d.value.hours < 100 ==> Text.AllDigits(r.value) && |r.value| == 2
  {
    PaddedText(if d.Some? then Some(d.value.hours) else None)
  }

  /** `paddedDecimalMinute`: the padded decimal minute. */
  function PaddedDecimalMinute(d: Option<DecimalTime>): (r: Option<string>)
    ensures r.None? <==> d.None?
    ensures r.Some? ==> Text.IsIntText(r.value) && Text.ParseInt(r.value) == d.value.minutes
    ensures r.Some? && 0 <= d.value.minutes < 100 ==> Text.AllDigits(r.value) && |r.value| == 2
  {
    PaddedText(if d.Some? then Some(d.value.minutes) else None)
  }

  /** `paddedDecimalSecond`: the padded decimal second. */
  function PaddedDecimalSecond(d: Option<DecimalTime>): (r: Option<string>)
    ensures r.None? <==> d.None?
    ensures r.Some? ==> Text.IsIntText(r.value) && Text.ParseInt(r.value) == d.value.seconds
    ensures r.Some? && 0 <= d.value.seconds < 100 ==> Text.AllDigits(r.value) && |r.value| == 2
  {
    PaddedText(if d.Some? then Some(d.value.seconds) else None)
  }

  /* -------------------------------------------------------------- Example */

  /** 13:05:09.5 reads 1 PM, "05" minutes, "09" seconds, 500 ms and a tock. */
  lemma AfternoonExample(c: Components, cal: Calendar)
    requires c.hour == Some(13) && c.minute == Some(5) && c.second == Some(9)
    requires c.nanosecond == Some(500_000_000)
    ensures Hour12(c) == Some(1) && PeriodString(c, cal) == Some(cal.pmSymbol)
    ensures PaddedMinute(c) == Some("05") && PaddedSecond(c) == Some("09")
    ensures Millisecond(c) == Some(500) && SecondTickTock(c) == Some(Tock)
  {
    assert Text.NatToString(5) == "5" && Text.NatToString(9) == "9";
    assert Text.PadTimeUnit(5) == "05" && Text.PadTimeUnit(9) == "09";
  }
}
