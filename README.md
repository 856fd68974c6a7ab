# TimeKeeper in Dafny

A model of `TimeKeeper`, the Swift class that holds one captured date and one
calendar and derives every displayed time field from them: the 12- and
24-hour readings, AM/PM and its locale symbol, month and weekday names, the
padded minute and second texts, the millisecond, the tick/tock label and the
long date string. It also holds the date's decimal time (the day divided into
10 hours of 100 minutes of 100 seconds), which is built lazily on first read
and kept in step with the date by `update()`.

Files:

- `wrappers.dfy` (module `Wrappers`): the `Option` type that stands for Swift's `T?`.
- `foundation.dfy` (module `Foundation`): stand-ins for `Date`, `DateComponents`,
  `Calendar` and the DecimalTime library's value type. The calendar's component
  extraction is a function-valued field, so every result holds for any calendar.
- `text.dfy` (module `Text`): `String(n)` for integers, `padTimeUnit`, and a
  parser that serves as their inverse.
- `fields.dfy` (module `Fields`): the computed properties, as pure functions of
  the date's components and the calendar.
- `timekeeper.dfy` (module `Keeper`): the class `TimeKeeper` with `date`, the
  `decimalTimeInitialized` flag (`initialized`) and the lazy storage of
  `decimalTime` (`cache`), the lazy getter, the non-building getter
  `_decimalTime`, and `update()`.

A conventional property `p` of a `TimeKeeper` `k` is `Fields.P(k.DateComponents(), k.calendar, ...)`.
The plain component properties (`year`, `month`, `day`, `weekday`, `hour`,
`hour24`, `minute`, `second`, `nanosecond`) are the fields of `Components`;
`description` is `dateString`.

Foreign calls are parameters: the clock reading `Date()` is the argument of
the constructor and of `Update`; `Calendar.current` is the constructor's
`calendar`; `DecimalTime(from:using:)!` is the constructor's `decimalOf`;
`String.capitalized` is the `capitalize` argument of the name functions; the
long-style `DateFormatter` text of the date is the `formatted` argument of
`DateString`.

Two assumptions about code defined outside TimeKeeper.swift:

- `padTimeUnit` is modelled after its documented intent ("padded, 2-digit
  String"): one leading zero for 0 to 9, the plain decimal text for every
  other value, so 100 or more is never cut.
- `setTime(from:using:)` of the DecimalTime library is taken to give the same
  value as converting the date afresh with `DecimalTime(from:using:)`.

Notes on the code:

- `update()` does not clear the decimal cache. It resets a cache that was
  already built to the new date, and leaves an unbuilt cache unbuilt.
- There is no construction-time check of the calendar's symbol tables. An
  out-of-range month or weekday gives no name instead (`Fields.SymbolName`).

## Model

| member | source | states |
|---|---|---|
| `Text.NatToString` | Sources/TimeKeeper/TimeKeeper.swift:143-146 | `String(n)` of a non-negative value is all digits, one digit exactly below 10, two for 10 to 99, at least three from 100, and no leading zero |
| `Text.IntToString` | Sources/TimeKeeper/TimeKeeper.swift:143-146 | `String(n)` of any Int is integer text, all digits exactly when the value is non-negative, and in canonical form: "0" for zero, no leading zero for a positive value, none after the minus sign for a negative one |
| `Text.IntToStringRoundTrip` | Sources/TimeKeeper/TimeKeeper.swift:143-146 | parsing `String(n)` gives back `n` |
| `Text.PadTimeUnit` | Sources/TimeKeeper/TimeKeeper.swift:153-157 | a padded unit is exactly two characters for 0 to 99, at least two digits for any non-negative value, starts with the padding zero exactly for 0 to 9 (no leading zero from 10 on), and is never truncated from 100 on |
| `Text.PadTimeUnitRoundTrip` | Sources/TimeKeeper/TimeKeeper.swift:195-199 | parsing a padded unit gives back the value, so padding loses nothing |
| `Text.PadTimeUnitInjective` | Sources/TimeKeeper/TimeKeeper.swift:195-199 | two different values never share a padded text |
| `Fields.Hour12Of` | Sources/TimeKeeper/TimeKeeper.swift:133-139 | a 24-hour value in 0..23 reads 1..12 on a 12-hour clock, and keeps its position on the dial (same value mod 12) |
| `Fields.Hour12` | Sources/TimeKeeper/TimeKeeper.swift:131-140 | `hour12` is absent exactly when the hour is, in 1..12 for an hour in 0..23 (whatever the other components hold), and equal to the hour mod 12, which for 0..23 fixes 0 to 12, 1..12 to themselves and 13..23 to hour - 12 |
| `Fields.PeriodOf` | Sources/TimeKeeper/TimeKeeper.swift:178 | the period is AM exactly for hours in [0, 12), PM otherwise |
| `Fields.PeriodOfDay` | Sources/TimeKeeper/TimeKeeper.swift:176-179 | `period` is absent exactly when the hour is; AM exactly on [0, 12), PM for every other present hour |
| `Fields.PeriodString` | Sources/TimeKeeper/TimeKeeper.swift:182-185 | `periodString` is absent exactly when the hour is, the AM symbol for AM and the PM symbol for PM |
| `Fields.Hour24From` | Sources/TimeKeeper/TimeKeeper.swift:131-185 | reading a 12-hour value with its period gives an hour in 0..23 whose period is that period |
| `Fields.Hour12RoundTrip` | Sources/TimeKeeper/TimeKeeper.swift:131-185 | `hour12` together with `period` determines the 24-hour value |
| `Fields.Hour12Onto` | Sources/TimeKeeper/TimeKeeper.swift:131-140 | every 12-hour value is the `hour12` of some hour in each period |
| `Fields.SymbolName` | Sources/TimeKeeper/TimeKeeper.swift:64-104 | a name is present exactly when the component is present and value - 1 indexes the table, and then it is the capitalized entry at value - 1 |
| `Fields.MonthName` | Sources/TimeKeeper/TimeKeeper.swift:64-69 | `monthName` is present exactly when the month indexes the full month table, and is its capitalized entry |
| `Fields.MonthNameShort` | Sources/TimeKeeper/TimeKeeper.swift:72-77 | `monthNameShort` likewise on the short month table |
| `Fields.WeekdayName` | Sources/TimeKeeper/TimeKeeper.swift:91-96 | `weekdayName` likewise on the full weekday table, weekday 1 being the first entry |
| `Fields.WeekdayNameShort` | Sources/TimeKeeper/TimeKeeper.swift:99-104 | `weekdayNameShort` likewise on the short weekday table |
| `Fields.NamesPresentInRange` | Sources/TimeKeeper/TimeKeeper.swift:64-104 | with 12-month and 7-weekday tables, a month in 1..12 has both month names and a weekday in 1..7 both weekday names, whatever the other components hold |
| `Fields.DateString` | Sources/TimeKeeper/TimeKeeper.swift:112-117 | the date string ends with the formatted date; it is the formatted date alone exactly when the weekday name is absent or empty, and otherwise starts with the name and ", " |
| `Fields.TruncDiv` | Sources/TimeKeeper/TimeKeeper.swift:269 | Swift's `/` brackets the dividend between quotient multiples, rounding toward zero for either sign |
| `Fields.Millisecond` | Sources/TimeKeeper/TimeKeeper.swift:267-270 | `millisecond` is absent exactly when the nanosecond is, and is the nanosecond divided by 1,000,000 toward zero |
| `Fields.MillisecondInRange` | Sources/TimeKeeper/TimeKeeper.swift:267-270 | a nanosecond in 0..999,999,999 gives a millisecond in 0..999 |
| `Fields.TickTockOf` | Sources/TimeKeeper/TimeKeeper.swift:296-307 | tick exactly for a nonzero even second, tock for zero and odd seconds, absent exactly when the second is |
| `Fields.SecondTickTock` | Sources/TimeKeeper/TimeKeeper.swift:296-299 | the conventional `tickTock` applies that rule to the second component |
| `Fields.DecimalTickTock` | Sources/TimeKeeper/TimeKeeper.swift:304-307 | the decimal `tickTock` applies the same rule to the decimal second |
| `Fields.TickTockAlternates` | Sources/TimeKeeper/TimeKeeper.swift:295-299 | from second 1 on, consecutive seconds carry different labels |
| `Fields.TickTockRepeatsAtMinute` | Sources/TimeKeeper/TimeKeeper.swift:295-299 | seconds 59, 0 and 1 all tock, so against the comment "Every second alternates" the label repeats twice a minute (59 to 0 and 0 to 1); with TickTockAlternates these are the only repeats in a minute |
| `Fields.PaddedText` | Sources/TimeKeeper/TimeKeeper.swift:153-157 | the padded text of an optional value is absent exactly when the value is, parses back to it, is at least two digits for a non-negative value, exactly two for 0 to 99, and has no leading zero from 10 on |
| `Fields.Hour12String` | Sources/TimeKeeper/TimeKeeper.swift:143-146 | `hour12String` is absent exactly when the hour is, parses back to `hour12`, has one or two characters for an hour in 0..23, and is unpadded: all digits with no leading zero for a positive `hour12` |
| `Fields.Hour24String` | Sources/TimeKeeper/TimeKeeper.swift:153-157 | `hour24String` is absent exactly when the hour is, parses back to it, is all digits for a non-negative hour, and exactly two characters for an hour in 0..99, whatever the other components hold |
| `Fields.PaddedMinute` | Sources/TimeKeeper/TimeKeeper.swift:195-199 | `paddedMinute` likewise for the minute: two digits for 0..99 that parse back to it, whatever the other components hold |
| `Fields.PaddedSecond` | Sources/TimeKeeper/TimeKeeper.swift:220-224 | `paddedSecond` likewise for the second: two digits for 0..99 that parse back to it, whatever the other components hold |
| `Fields.HourDecimalString` | Sources/TimeKeeper/TimeKeeper.swift:164-168 | the padded decimal hour is absent exactly when the decimal time is, parses back to its hour, and is exactly two digits for an hour in 0..99 |
| `Fields.PaddedDecimalMinute` | Sources/TimeKeeper/TimeKeeper.swift:206-210 | likewise for the decimal minute: two digits for 0..99 that parse back to it |
| `Fields.PaddedDecimalSecond` | Sources/TimeKeeper/TimeKeeper.swift:244-248 | likewise for the decimal second: two digits for 0..99 that parse back to it |
| `Fields.AfternoonExample` | Sources/TimeKeeper/TimeKeeper.swift:131-299 | 13:05:09.5 reads hour 1, the PM symbol, "05", "09", 500 ms and tock |
| `Keeper.TimeKeeper.constructor` | Sources/TimeKeeper/TimeKeeper.swift:316-320 | a new keeper holds the given date and calendar, with the decimal time unbuilt and the flag clear |
| `Keeper.TimeKeeper.PeekDecimalTime` | Sources/TimeKeeper/TimeKeeper.swift:31-40 | `_decimalTime` is present exactly when the flag is set, is then the decimal time of the current date, and never builds it |
| `Keeper.TimeKeeper.GetDecimalTime` | Sources/TimeKeeper/TimeKeeper.swift:26-30 | reading `decimalTime` returns the decimal time of the current date, sets the flag, stores the value, keeps an already stored value, and leaves the date and so every conventional component unchanged |
| `Keeper.TimeKeeper.Update` | Sources/TimeKeeper/TimeKeeper.swift:342-345 | `update()` replaces the date (so the components become the new date's), keeps the flag, resets a built cache to the new date's decimal time and leaves an unbuilt one unbuilt |
| `Keeper.TimeKeeper.HourDecimal` | Sources/TimeKeeper/TimeKeeper.swift:161-162 | `hourDecimal` is the hour of the current date's decimal time, built if needed |
| `Keeper.TimeKeeper.MinuteDecimal` | Sources/TimeKeeper/TimeKeeper.swift:203-204 | `minuteDecimal` likewise for the minute |
| `Keeper.TimeKeeper.SecondDecimal` | Sources/TimeKeeper/TimeKeeper.swift:241-242 | `secondDecimal` likewise for the second |
| `Keeper.TimeKeeper.MillisecondDecimal` | Sources/TimeKeeper/TimeKeeper.swift:272-273 | `millisecondDecimal` likewise for the millisecond |
| `Keeper.TimeKeeper.NanosecondDecimal` | Sources/TimeKeeper/TimeKeeper.swift:287-288 | `nanosecondDecimal` likewise for the nanosecond |
| `Keeper.TimeKeeper.HourDecimalString` | Sources/TimeKeeper/TimeKeeper.swift:165-168 | `hourDecimalString` pads the current date's decimal hour, building the decimal time if needed |
| `Keeper.TimeKeeper.PaddedDecimalMinute` | Sources/TimeKeeper/TimeKeeper.swift:207-210 | `paddedDecimalMinute` likewise for the decimal minute |
| `Keeper.TimeKeeper.PaddedDecimalSecond` | Sources/TimeKeeper/TimeKeeper.swift:245-248 | `paddedDecimalSecond` likewise for the decimal second |
| `Keeper.TimeKeeper.DecimalTickTock` | Sources/TimeKeeper/TimeKeeper.swift:304-307 | the decimal `tickTock` labels the current date's decimal second, building the decimal time if needed |
| `Keeper.ReadsBetweenUpdates` | Sources/TimeKeeper/TimeKeeper.swift:26-40 | two reads with no update between them agree, and a read after `update()` gives the new date's decimal time |
| `Keeper.UpdateBeforeRead` | Sources/TimeKeeper/TimeKeeper.swift:342-345 | an update before any read leaves the decimal time unbuilt, and the next read builds it from the new date |

## Left out

- Timer plumbing: `startTimer`, `stopTimer`, `updateTimer`, the timer started by `init(updatedEvery:)`, and the platform-version branches. They schedule calls to `update()` and hold no logic.
- `TimeEmitter`, `IntervalEmitter` and `Updatable`: observable-object and protocol wrappers that forward to `update()`.
- `Date.dateComponents`: a forward to the calendar, which the model carries as `Calendar.dateComponents`.
- `preciseSecond`, `paddedPreciseSecond`, `preciseSecondDecimal` and `paddedPreciseDecimalSecond`: floating-point arithmetic and `round`.
- The DecimalTime library's internals, including `secondsWithRemainder`: the conversion is the injected `decimalOf`, so the relation between decimal and conventional fields is not stated.
- Assigning to the public `decimalTime` property from outside: Swift gives the lazy property a public setter. An assignment before the first read would store a value without setting the flag, so `update()` would never refresh it. The model keeps the invariant that a built cache matches the date, which only holds without such assignments.
- The failure of `DecimalTime(from:using:)`: the code force-unwraps its optional result, which traps on nil; the injected `decimalOf` is total, so the model assumes the conversion always succeeds.
- Keeper.TimeKeeper.DateComponents: it forwards to `Calendar.dateComponents` on the current date and carries no property of its own; a conventional property is `Fields.P(k.DateComponents(), ...)`, and the methods state how it moves (`Update` makes it the new date's, the decimal-time reads leave it unchanged).
- `String.capitalized`, `DateFormatter`, `Date()` and `Calendar.current`: locale and clock calls. They enter as parameters.
- `Foundation.Date`: modelled as whole nanoseconds since the reference date rather than a `Double` of seconds. Nothing in the model does arithmetic on it.
- Fields.SymbolName: Swift's 64-bit `Int` is unbounded here, so the overflow trap of `value - 1` at `Int.min` is not modelled.
