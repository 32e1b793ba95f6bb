/** The builder's two pieces of date logic: the time of the next meeting
    (`is_dst_shabbat` and its use in the roster collector) and the number of
    days until the coming Shabbat (`get_date`). Turning these into calendar
    dates is not modelled: the month and day of the Shabbat a week later,
    and today's weekday, are inputs. */
module Scheduling {
  import opened Classifier

  /** `is_dst_shabbat`: a Shabbat from March 14 on is past the second Sunday
      of March, one before November 7 is before the first Sunday of
      November. */
  predicate IsDstShabbat(month: int, day: int) {
    || (month == 3 && day >= 14)
    || (month > 3 && month < 11)
    || (month == 11 && day < 7)
  }

  /** A month and day as one number that orders dates within a year. */
  function MonthDay(month: int, day: int): int {
    month * 100 + day
  }

  /** The time printed for the next meeting, given the month and day one
      week after this Shabbat: 9:30 from March 14 through November 6 and
      9:00 otherwise. */
  function NextMeetingTime(month: int, day: int): (t: string)
    ensures t == "9:30" || t == "9:00"
    ensures 1 <= day <= 31 ==> (t == "9:30" <==> MonthDay(3, 14) <= MonthDay(month, day) <= MonthDay(11, 6))
  {
    if IsDstShabbat(month, day) then "9:30" else "9:00"
  }

  /** A July meeting is at 9:30 and a January one at 9:00, whatever the day. */
  lemma SummerAndWinter(day: int)
    requires 1 <= day <= 31
    ensures NextMeetingTime(7, day) == "9:30"
    ensures NextMeetingTime(1, day) == "9:00"
  {
  }

  /** The weekday `k` days after `today`; 5 is Saturday. */
  function WeekdayAfter(today: Weekday, k: int): Weekday {
    (today + k) % 7
  }

  /** `get_date`'s `((4 - now.weekday()) % 7) + 1`; Python's `%` and Dafny's
      agree here since the divisor is positive. The result is the number of
      days to the first Saturday strictly after today, so on a Saturday it is
      a whole week. */
  function DaysUntilNextShabbat(today: Weekday): (d: int)
    ensures 1 <= d <= 7
    ensures WeekdayAfter(today, d) == 5
    ensures forall k :: 1 <= k < d ==> WeekdayAfter(today, k) != 5
  {
    ((4 - today) % 7) + 1
  }

  /** On a Saturday the sheet is for the Shabbat a week ahead; on a Friday
      for tomorrow. */
  lemma SaturdayAndFriday()
    ensures DaysUntilNextShabbat(5) == 7
    ensures DaysUntilNextShabbat(4) == 1
  {
  }
}
