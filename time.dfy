/** Instants are whole milliseconds since a local epoch that fell on a
    Thursday at midnight; time zones and daylight saving are not modelled,
    so a calendar day is `ms / MsPerDay` and every day is 24 hours long. */
module Time {
  const MsPerDay: int := 86400000
  const MsPerHour: int := 3600000
  const MsPerMinute: int := 60000
  const MsPerSecond: int := 1000

  /** The calendar day an instant falls on. */
  function Day(ms: int): int {
    ms / MsPerDay
  }

  function TimeOfDay(ms: int): (r: int)
    ensures 0 <= r < MsPerDay
  {
    ms % MsPerDay
  }

  /** `Date.prototype.getDay`: 0 is Sunday, 6 is Saturday. */
  function Weekday(day: int): (r: int)
    ensures 0 <= r < 7
  {
    (day + 4) % 7
  }

  /** Midnight at the start of a calendar day. */
  function DayStart(day: int): (r: int)
    ensures Day(r) == day && TimeOfDay(r) == 0
  {
    DayFacts(day, 0);
    day * MsPerDay
  }

  /** The last millisecond of a calendar day (23:59:59.999). */
  function DayEnd(day: int): (r: int)
    ensures Day(r) == day && TimeOfDay(r) == MsPerDay - 1
  {
    DayFacts(day, MsPerDay - 1);
    day * MsPerDay + MsPerDay - 1
  }

  lemma DayFacts(day: int, t: int)
    requires 0 <= t < MsPerDay
    ensures Day(day * MsPerDay + t) == day && TimeOfDay(day * MsPerDay + t) == t
  {
  }

  /** An instant is its day's midnight plus its time of day. */
  lemma Decompose(ms: int)
    ensures ms == Day(ms) * MsPerDay + TimeOfDay(ms)
  {
  }

  /** Moving by whole days keeps the time of day and moves the day. */
  lemma ShiftDays(ms: int, k: int)
    ensures Day(ms + k * MsPerDay) == Day(ms) + k
    ensures TimeOfDay(ms + k * MsPerDay) == TimeOfDay(ms)
  {
    Decompose(ms);
    DayFacts(Day(ms) + k, TimeOfDay(ms));
    assert ms + k * MsPerDay == (Day(ms) + k) * MsPerDay + TimeOfDay(ms);
  }

  lemma WeekdayShift(day: int, k: int)
    ensures Weekday(day + k) == (Weekday(day) + k) % 7
  {
  }

  /** The Sunday that opens the Sunday-to-Saturday week holding `day`. */
  function SundayOf(day: int): (r: int)
    ensures Weekday(r) == 0 && r <= day < r + 7
  {
    day - Weekday(day)
  }

  /** The Monday that opens the Monday-to-Sunday week holding `day`. */
  function MondayOf(day: int): (r: int)
    ensures Weekday(r) == 1 && r <= day < r + 7
  {
    day - (Weekday(day) + 6) % 7
  }

  /** Exactly one Sunday starts a seven-day run containing a given day. */
  lemma SundayUnique(s: int, day: int)
    requires Weekday(s) == 0 && s <= day < s + 7
    ensures s == SundayOf(day)
  {
    WeekdayShift(s, day - s);
  }

  lemma MondayUnique(m: int, day: int)
    requires Weekday(m) == 1 && m <= day < m + 7
    ensures m == MondayOf(day)
  {
    WeekdayShift(m, day - m);
  }

  /** A JavaScript `Date` object: a mutable instant. */
  class Date {
    var ms: int

    constructor (ms: int)
      ensures this.ms == ms
    {
      this.ms := ms;
    }

    /** `getDay()`. */
    function GetDay(): (r: int)
      reads this
      ensures r == Weekday(Day(ms))
    {
      Weekday(Day(ms))
    }

    /** `setDate(getDate() + k)`: the day of the month overflows into the
        neighbouring months, so this moves the instant by k whole days. */
    method ShiftDate(k: int)
      modifies this
      ensures ms == old(ms) + k * MsPerDay
      ensures Day(ms) == Day(old(ms)) + k && TimeOfDay(ms) == TimeOfDay(old(ms))
    {
      ShiftDays(ms, k);
      ms := ms + k * MsPerDay;
    }

    /** `setHours(h, m, s, milli)` with in-range arguments: keeps the day
        and sets the time of day. */
    method SetHours(h: int, m: int, s: int, milli: int)
      requires 0 <= h < 24 && 0 <= m < 60 && 0 <= s < 60 && 0 <= milli < 1000
      modifies this
      ensures Day(ms) == Day(old(ms))
      ensures TimeOfDay(ms) == h * MsPerHour + m * MsPerMinute + s * MsPerSecond + milli
    {
      var t := h * MsPerHour + m * MsPerMinute + s * MsPerSecond + milli;
      DayFacts(Day(ms), t);
      ms := Day(ms) * MsPerDay + t;
    }
  }
}
