/**
 * The `TimeKeeper` object: one captured date, one calendar, and the lazily
 * built decimal time. The conventional fields are the functions of module
 * Fields applied to `DateComponents()`; what this class adds is the state
 * machine of the decimal-time cache.
 */
module Keeper {
  import opened Wrappers
  import opened Foundation
  import Fields

  class TimeKeeper {
    /** The current date; replaced by Update. */
    var date: Date

    /** The calendar captured at construction. */
    const calendar: Calendar

    /**
     * The DecimalTime library's conversion, `DecimalTime(from:using:)` with
     * its result force-unwrapped; `setTime(from:using:)` on a built value
     * gives the same value as converting afresh.
     */
    const decimalOf: (Date, Calendar) -> DecimalTime

    /** `decimalTimeInitialized`: set by the first read of the decimal time, never cleared. */
    var initialized: bool

    /** The storage of the lazy `decimalTime`: None until its initializer has run. */
    var cache: Option<DecimalTime>

    /**
     * The flag is set exactly when the cache is built, and a built cache holds
     * the decimal time of the current date: a reader never sees the decimal
     * time of one date beside another date.
     */
    ghost predicate Valid()
      reads this
    {
      && (initialized <==> cache.Some?)
      && (cache.Some? ==> cache.value == decimalOf(date, calendar))
    }

    /** `init()`: the clock's reading and the current calendar arrive as parameters. */
    constructor (now: Date, calendar: Calendar, decimalOf: (Date, Calendar) -> DecimalTime)
      ensures Valid()
      ensures date == now && this.calendar == calendar && this.decimalOf == decimalOf
      ensures !initialized && cache == None
    {
      date := now;
      this.calendar := calendar;
      this.decimalOf := decimalOf;
      initialized := false;
      cache := None;
    }

    /** `dateComponents`: recomputed from the current date at every read, never cached. */
    function DateComponents(): Components
      reads this
    {
      calendar.dateComponents(date)
    }

    /**
     * `_decimalTime`'s getter: the decimal time if it has been built, and
     * nothing otherwise; reading it never builds it.
     */
    function PeekDecimalTime(): (r: Option<DecimalTime>)
      reads this
      requires Valid()
      ensures r.Some? <==> initialized
      ensures r.Some? ==> r.value == decimalOf(date, calendar)
    {
      if initialized then cache else None
    }

    /**
     * `decimalTime`'s getter: the first read runs the lazy initializer, which
     * sets the flag and stores the conversion of the current date; later reads
     * return the stored value unchanged. The date is never touched.
     */
    method GetDecimalTime() returns (r: Option<DecimalTime>)
      requires Valid()
      modifies this
      ensures Valid()
      ensures r == Some(decimalOf(date, calendar))
      ensures initialized && cache == r
      ensures date == old(date) && DateComponents() == old(DateComponents())
      ensures old(initialized) ==> cache == old(cache)
    {
      if cache.None? {
        initialized := true;
        cache := Some(decimalOf(date, calendar));
      }
      r := cache;
    }

    /**
     * `update()`: the clock's new reading replaces the date; a decimal time
     * already built is reset to the new date, one not yet built stays unbuilt.
     */
    method Update(now: Date)
      requires Valid()
      modifies this
      ensures Valid()
      ensures date == now && DateComponents() == calendar.dateComponents(now)
      ensures initialized == old(initialized)
      ensures cache == if old(initialized) then Some(decimalOf(now, calendar)) else None
    {
      date := now;
      if initialized {
        // a decimal time already built is reset to the new date
        cache := Some(decimalOf(date, calendar));
      }
    }

    /** `hourDecimal`: the decimal hour, building the decimal time if needed. */
    method HourDecimal() returns (r: Option<int>)
      requires Valid()
      modifies this
      ensures Valid() && initialized && date == old(date)
      ensures DateComponents() == old(DateComponents())
      ensures r == Some(decimalOf(date, calendar).hours)
    {
      var d := GetDecimalTime();
      r := Some(d.value.hours);
    }

    /** `minuteDecimal`: the decimal minute, building the decimal time if needed. */
    method MinuteDecimal() returns (r: Option<int>)
      requires Valid()
      modifies this
      ensures Valid() && initialized && date == old(date)
      ensures DateComponents() == old(DateComponents())
      ensures r == Some(decimalOf(date, calendar).minutes)
    {
      var d := GetDecimalTime();
      r := Some(d.value.minutes);
    }

    /** `secondDecimal`: the decimal second, building the decimal time if needed. */
    method SecondDecimal() returns (r: Option<int>)
      requires Valid()
      modifies this
      ensures Valid() && initialized && date == old(date)
      ensures DateComponents() == old(DateComponents())
      ensures r == Some(decimalOf(date, calendar).seconds)
    {
      var d := GetDecimalTime();
      r := Some(d.value.seconds);
    }

    /** `millisecondDecimal`: the decimal millisecond, building the decimal time if needed. */
    method MillisecondDecimal() returns (r: Option<int>)
      requires Valid()
      modifies this
      ensures Valid() && initialized && date == old(date)
      ensures DateComponents() == old(DateComponents())
      ensures r == Some(decimalOf(date, calendar).milliseconds)
    {
      var d := GetDecimalTime();
      r := Some(d.value.milliseconds);
    }

    /** `nanosecondDecimal`: the decimal nanosecond, building the decimal time if needed. */
    method NanosecondDecimal() returns (r: Option<int>)
      requires Valid()
      modifies this
      ensures Valid() && initialized && date == old(date)
      ensures DateComponents() == old(DateComponents())
      ensures r == Some(decimalOf(date, calendar).nanoseconds)
    {
      var d := GetDecimalTime();
      r := Some(d.value.nanoseconds);
    }

    /** `hourDecimalString`: the padded decimal hour of the (possibly just built) decimal time. */
    method HourDecimalString() returns (r: Option<string>)
      requires Valid()
      modifies this
      ensures Valid() && initialized && date == old(date)
      ensures DateComponents() == old(DateComponents())
      ensures r == Fields.HourDecimalString(Some(decimalOf(date, calendar)))
    {
      var d := GetDecimalTime();
      r := Fields.HourDecimalString(d);
    }

    /** `paddedDecimalMinute`: the padded decimal minute. */
    method PaddedDecimalMinute() returns (r: Option<string>)
      requires Valid()
      modifies this
      ensures Valid() && initialized && date == old(date)
      ensures DateComponents() == old(DateComponents())
      ensures r == Fields.PaddedDecimalMinute(Some(decimalOf(date, calendar)))
    {
      var d := GetDecimalTime();
      r := Fields.PaddedDecimalMinute(d);
    }

    /** `paddedDecimalSecond`: the padded decimal second. */
    method PaddedDecimalSecond() returns (r: Option<string>)
      requires Valid()
      modifies this
      ensures Valid() && initialized && date == old(date)
      ensures DateComponents() == old(DateComponents())
      ensures r == Fields.PaddedDecimalSecond(Some(decimalOf(date, calendar)))
    {
      var d := GetDecimalTime();
      r := Fields.PaddedDecimalSecond(d);
    }

    /** The decimal `tickTock`: the shared parity rule on the decimal second. */
    method DecimalTickTock() returns (r: Option<Fields.TickTock>)
      requires Valid()
      modifies this
      ensures Valid() && initialized && date == old(date)
      ensures DateComponents() == old(DateComponents())
      ensures r == Fields.DecimalTickTock(Some(decimalOf(date, calendar)))
    {
      var d := GetDecimalTime();
      r := Fields.DecimalTickTock(d);
    }
  }

  /**
   * Two reads with no update between them agree, and a read after an update
   * gives the decimal time of the new date, not the one cached before.
   */
  method ReadsBetweenUpdates(k: TimeKeeper, later: Date)
    returns (first: Option<DecimalTime>, second: Option<DecimalTime>, refreshed: Option<DecimalTime>)
    requires k.Valid()
    modifies k
    ensures first == second == Some(k.decimalOf(old(k.date), k.calendar))
    ensures refreshed == Some(k.decimalOf(later, k.calendar))
    ensures k.Valid() && k.initialized && k.date == later
  {
    first := k.GetDecimalTime();
    second := k.GetDecimalTime();
    k.Update(later);
    refreshed := k.GetDecimalTime();
  }

  /** An update before any read leaves the decimal time unbuilt; the next read builds it from the new date. */
  method UpdateBeforeRead(k: TimeKeeper, later: Date) returns (peeked: Option<DecimalTime>, read: Option<DecimalTime>)
    requires k.Valid() && !k.initialized
    modifies k
    ensures peeked == None
    ensures read == Some(k.decimalOf(later, k.calendar))
  {
    k.Update(later);
    peeked := k.PeekDecimalTime();
    read := k.GetDecimalTime();
  }
}
