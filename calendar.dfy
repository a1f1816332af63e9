/**
  Time as the models see it: integer minutes since 1970-01-01 00:00 (the loaders read
  timestamps at minute precision), calendar dates as day numbers since 1970-01-01.
*/
module Calendar {

  const MinutesPerDay := 1440
  const MinutesPerHour := 60

  /** The calendar date of a timestamp (pandas' .dt.date); division is floor division. */
  function DayOf(t: int): int {
    t / MinutesPerDay
  }

  /** The hour of the day of a timestamp (pandas' .dt.hour). */
  function HourOf(t: int): (h: int)
    ensures 0 <= h < 24
  {
    (t % MinutesPerDay) / MinutesPerHour
  }

  lemma DayOfMonotone(t1: int, t2: int)
    requires t1 <= t2
    ensures DayOf(t1) <= DayOf(t2)
  {
  }

  /** Year, month (1..12) and day of a day number: the proleptic Gregorian calendar. */
  function CivilFromDays(days: int): (int, int, int) {
    var z := days + 719468;
    var era := z / 146097;
    var doe := z - era * 146097;
    var yoe := (doe - doe / 1460 + doe / 36524 - doe / 146096) / 365;
    var y := yoe + era * 400;
    var doy := doe - (365 * yoe + yoe / 4 - yoe / 100);
    var mp := (5 * doy + 2) / 153;
    var d := doy - (153 * mp + 2) / 5 + 1;
    var m := if mp < 10 then mp + 3 else mp - 9;
    (if m <= 2 then y + 1 else y, m, d)
  }

  /** The year-month period of a day number as one integer, year * 12 + (month - 1);
      its order is the order of the "YYYY-MM" strings pandas' to_period('M') prints. */
  function MonthOf(days: int): int {
    var (y, m, _) := CivilFromDays(days);
    y * 12 + (m - 1)
  }

  /** Day number of 2025-01-01, the date the error charts fall back to. */
  const Jan1st2025 := 20089

  lemma Jan1st2025IsThatDate()
    ensures CivilFromDays(Jan1st2025) == (2025, 1, 1)
  {
    var z := Jan1st2025 + 719468;
    assert z / 146097 == 5;
    var doe := z - 5 * 146097;
    assert doe == 9072;
    assert doe / 1460 == 6 && doe / 36524 == 0 && doe / 146096 == 0;
    assert (doe - 6) / 365 == 24;
    assert 24 / 4 == 6 && 24 / 100 == 0;
    var doy := doe - (365 * 24 + 6);
    assert doy == 306;
    assert (5 * doy + 2) / 153 == 10;
    assert (153 * 10 + 2) / 5 == 306;
  }
}
