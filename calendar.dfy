/** Calendar days as integers. Day 0 is 1970-01-01, a Thursday; weekdays use
    the numbering of `Date.prototype.getDay` (0 = Sunday, 1 = Monday, ...,
    6 = Saturday). ISO date strings of the source compare like these numbers. */
module Calendar {
  import opened Wrappers

  const Sunday: int := 0
  const Monday: int := 1

  function Weekday(day: int): (w: int)
    ensures 0 <= w < 7
  {
    (day + 4) % 7
  }

  lemma WeekdayShift(day: int, k: int)
    requires 0 <= k < 7
    ensures Weekday(day + k) == (Weekday(day) + k) % 7
  {
  }

  /** The Monday of the week that contains `day`: a Sunday goes back six
      days, any other day goes back (weekday - 1) days. The result is the
      one Monday among the seven days that end at `day`. */
  function StartOfWeek(day: int): (monday: int)
    ensures Weekday(monday) == Monday
    ensures day - 6 <= monday <= day
  {
    var w := Weekday(day);
    day - (if w == Sunday then 6 else w - 1)
  }

  /** Only one Monday lies within the last seven days. */
  lemma StartOfWeekUnique(day: int, m: int)
    requires Weekday(m) == Monday && day - 6 <= m <= day
    ensures m == StartOfWeek(day)
  {
    var s := StartOfWeek(day);
    if m < s {
      WeekdayShift(m, s - m);
    } else if m > s {
      WeekdayShift(s, m - s);
    }
  }

  /** Every day from a Monday to the following Sunday has that Monday as its
      start of week. */
  lemma StartOfWeekOfWeekDays(day: int, d: int)
    requires StartOfWeek(day) <= d <= StartOfWeek(day) + 6
    ensures StartOfWeek(d) == StartOfWeek(day)
  {
    StartOfWeekUnique(d, StartOfWeek(day));
  }

  /** The `dayMap` of the week generator: Portuguese weekday codes to
      `getDay` numbers. Any other code is absent (`undefined`). */
  function DayNumber(code: string): (n: Option<int>)
    ensures n.Some? ==> 0 <= n.value < 7
  {
    if code == "seg" then Some(1)
    else if code == "ter" then Some(2)
    else if code == "qua" then Some(3)
    else if code == "qui" then Some(4)
    else if code == "sex" then Some(5)
    else if code == "sab" then Some(6)
    else if code == "dom" then Some(0)
    else None
  }

  /** Days after Monday of a `getDay` number: Sunday is the seventh day of
      the week, the others come in order from Monday. */
  function MondayOffset(dayNumber: int): int {
    if dayNumber == Sunday then 6 else dayNumber - 1
  }

  /** A known code lands in the week that starts on Monday, on the weekday it
      names: seg is Monday (offset 0), ..., sab is Saturday (5), dom is Sunday (6). */
  lemma OffsetLandsOnWeekday(code: string, monday: int)
    requires DayNumber(code).Some?
    requires Weekday(monday) == Monday
    ensures 0 <= MondayOffset(DayNumber(code).value) <= 6
    ensures Weekday(monday + MondayOffset(DayNumber(code).value)) == DayNumber(code).value
  {
    var n := DayNumber(code).value;
    WeekdayShift(monday, MondayOffset(n));
  }
}
