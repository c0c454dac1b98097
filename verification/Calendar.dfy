/** Recovering a local date from a UTC instant and a local day of the year: try
    the UTC year and its two neighbours, and keep the closest date. Gregorian,
    proleptic, with days counted from 1 January of year 1. */
module Calendar {
  import opened Units

  const MILLIS_PER_DAY := 86_400_000
  /** 1 January 1970. */
  const UNIX_EPOCH_DAY := 719_163

  datatype Date = Date(year: int, ordinal: int)

  predicate Leap(year: int) { year % 4 == 0 && (year % 100 != 0 || year % 400 == 0) }

  function YearLength(year: int): int { if Leap(year) then 366 else 365 }

  predicate Exists(d: Date) { 1 <= d.ordinal <= YearLength(d.year) }

  /** Days in all the years before this one. */
  function DaysBefore(year: int): int
  {
    var y := year - 1;
    365 * y + y / 4 - y / 100 + y / 400
  }

  function DayNumber(d: Date): int { DaysBefore(d.year) + d.ordinal }

  function DayOfMillis(ms: int): int { ms / MILLIS_PER_DAY + UNIX_EPOCH_DAY }

  lemma Quarter(y: int)
    ensures y / 4 - (y - 1) / 4 == if y % 4 == 0 then 1 else 0
  {
  }

  lemma Century(y: int)
    ensures y / 100 - (y - 1) / 100 == if y % 100 == 0 then 1 else 0
  {
  }

  lemma Cycle(y: int)
    ensures y / 400 - (y - 1) / 400 == if y % 400 == 0 then 1 else 0
  {
  }

  lemma Fours(q: int)
    ensures 4 * q % 4 == 0
  {
  }

  lemma Hundreds(q: int)
    ensures 100 * q % 100 == 0
  {
  }

  lemma Multiples(y: int)
    ensures y % 100 == 0 ==> y % 4 == 0
    ensures y % 400 == 0 ==> y % 100 == 0
  {
    Fours(25 * (y / 100));
    Hundreds(4 * (y / 400));
  }

  /** The closed form counts exactly the days of each year. */
  lemma YearsAbut(year: int)
    ensures DaysBefore(year + 1) == DaysBefore(year) + YearLength(year)
  {
    Quarter(year);
    Century(year);
    Cycle(year);
    Multiples(year);
  }

  lemma {:induction false} YearsAscend(a: int, b: int)
    requires a <= b
    ensures DaysBefore(b) >= DaysBefore(a) + 365 * (b - a)
    decreases b - a
  {
    if a < b {
      YearsAbut(b - 1);
      YearsAscend(a, b - 1);
    }
  }

  /** The year a day falls in, found by stepping from a guess. */
  function YearFrom(day: int, guess: int): (year: int)
    ensures DaysBefore(year) < day <= DaysBefore(year + 1)
    decreases if day <= DaysBefore(guess) then DaysBefore(guess) - day + 1
              else if day > DaysBefore(guess + 1) then day - DaysBefore(guess + 1)
              else 0
  {
    YearsAscend(guess - 1, guess);
    YearsAscend(guess, guess + 1);
    YearsAscend(guess + 1, guess + 2);
    if day <= DaysBefore(guess) then YearFrom(day, guess - 1)
    else if day > DaysBefore(guess + 1) then YearFrom(day, guess + 1)
    else guess
  }

  function YearOf(day: int): int { YearFrom(day, 1970) }

  function DateOf(day: int): Date { Date(YearOf(day), day - DaysBefore(YearOf(day))) }

  /** Dates and day numbers correspond one to one. */
  lemma DateRoundTrip(day: int)
    ensures Exists(DateOf(day)) && DayNumber(DateOf(day)) == day
  {
    YearsAbut(YearOf(day));
  }

  lemma DayRoundTrip(d: Date)
    requires Exists(d)
    ensures DateOf(DayNumber(d)) == d
  {
    var day := DayNumber(d);
    var year := YearOf(day);
    YearsAbut(d.year);
    if year < d.year {
      YearsAscend(year + 1, d.year);
    } else if year > d.year {
      YearsAscend(d.year + 1, year);
    }
  }

  /** Where the counting is fixed to the world: the Unix epoch, and half an hour before
      midnight, UTC, of the last day of 2026. */
  lemma Landmarks()
    ensures DateOf(DayOfMillis(0)) == Date(1970, 1) && DateOf(DayOfMillis(-1)) == Date(1969, 365)
    ensures DateOf(DayOfMillis(1_798_759_800_000)) == Date(2026, 365)
    ensures YearLength(2000) == YearLength(2024) == 366 && YearLength(1900) == YearLength(2023) == 365
  {
    DayRoundTrip(Date(1970, 1));
    DayRoundTrip(Date(1969, 365));
    DayRoundTrip(Date(2026, 365));
  }

  // --- The search ---

  function Distance(d: Date, utc: int): int { Abs(DayNumber(d) - utc) }

  /** One candidate more: `from_yo_opt` drops a date that does not exist, and
      `min_by_key` keeps the first of several at the least distance. */
  function Nearer(best: Option<Date>, candidate: Date, utc: int): Option<Date>
  {
    if !Exists(candidate) then best
    else if best.None? || Distance(candidate, utc) < Distance(best.value, utc) then Some(candidate)
    else best
  }

  function LocalDate(utc: int, ordinal: int): Option<Date>
  {
    var year := YearOf(utc);
    Nearer(Nearer(Nearer(None, Date(year - 1, ordinal), utc), Date(year, ordinal), utc),
           Date(year + 1, ordinal), utc)
  }

  /** What the search returns is a date of the ordinal in one of the three years, no
      further away than any other, and the earliest of those as near. */
  lemma LocalDateIsNearest(utc: int, ordinal: int, year: int)
    requires LocalDate(utc, ordinal).Some? && -1 <= year - YearOf(utc) <= 1 && Exists(Date(year, ordinal))
    ensures
      var d, other := LocalDate(utc, ordinal).value, Date(year, ordinal);
      && Exists(d) && d.ordinal == ordinal && -1 <= d.year - YearOf(utc) <= 1
      && (d == other || Distance(d, utc) < Distance(other, utc)
          || (Distance(d, utc) == Distance(other, utc) && d.year < year))
  {
    hide Distance, YearOf;
  }

  /** A date within half a year of the UTC date is in one of the three years,
      and every other candidate is further away. */
  lemma OthersAreFurther(utc: int, d: Date, other: Date)
    requires Exists(d) && Distance(d, utc) <= 182
    requires other.ordinal == d.ordinal && other != d
    ensures YearOf(utc) - 1 <= d.year <= YearOf(utc) + 1
    ensures Distance(other, utc) > Distance(d, utc)
  {
    hide DaysBefore;
    var year := YearOf(utc);
    YearsAbut(d.year);
    if d.year < year - 1 {
      YearsAscend(d.year + 1, year - 1);
      YearsAscend(year - 1, year);
    }
    if d.year > year + 1 { YearsAscend(year + 1, d.year); }
    if other.year < d.year { YearsAscend(other.year, d.year); } else { YearsAscend(d.year, other.year); }
  }

  /** The search is exact: whenever the true local date is at most 182 days from
      the UTC date, it is returned, leap days included, and nothing else is. */
  lemma LocalDateIsExact(utc: int, d: Date)
    requires Exists(d) && Distance(d, utc) <= 182
    ensures LocalDate(utc, d.ordinal) == Some(d)
  {
    hide Exists, Distance, YearOf;
    var year := YearOf(utc);
    OthersAreFurther(utc, d, Date(d.year + 1, d.ordinal));
    assert Date(d.year, d.ordinal) == d;
    if d.year != year - 1 { OthersAreFurther(utc, d, Date(year - 1, d.ordinal)); }
    if d.year != year { OthersAreFurther(utc, d, Date(year, d.ordinal)); }
    if d.year != year + 1 { OthersAreFurther(utc, d, Date(year + 1, d.ordinal)); }
  }

  /** One day further and it can be wrong: 2 July 2025 seen from 1 January 2026
      is 183 days back, but 2 July 2026 is only 182 days ahead. */
  lemma HalfAYearIsTheLimit()
    ensures
      var utc, d := DayNumber(Date(2026, 1)), Date(2025, 183);
      Exists(d) && Distance(d, utc) == 183 && LocalDate(utc, d.ordinal) == Some(Date(2026, 183))
  {
    DayRoundTrip(Date(2026, 1));
  }

  /** Every true local date at most this many days from the UTC date is returned. */
  ghost predicate ExactWithin(days: nat)
  {
    forall utc, d | Exists(d) && Distance(d, utc) <= days :: LocalDate(utc, d.ordinal) == Some(d)
  }

  /** So the search is exact to 182 days and no further. */
  lemma ExactToHalfAYear(days: nat)
    ensures ExactWithin(days) <==> days <= 182
  {
    hide Exists, Distance, LocalDate;
    if days <= 182 {
      forall utc, d | Exists(d) && Distance(d, utc) <= days ensures LocalDate(utc, d.ordinal) == Some(d) {
        LocalDateIsExact(utc, d);
      }
    } else {
      HalfAYearIsTheLimit();
      var utc, d := DayNumber(Date(2026, 1)), Date(2025, 183);
      assert Exists(d) && Distance(d, utc) <= days && LocalDate(utc, d.ordinal) != Some(d);
    }
  }

  /** No date is recovered exactly when no candidate year has that ordinal. */
  lemma UndatedExactly(utc: int, ordinal: int)
    ensures LocalDate(utc, ordinal).None?
            <==> ordinal < 1 || ordinal > 366
                 || (ordinal == 366 && !Leap(YearOf(utc) - 1) && !Leap(YearOf(utc)) && !Leap(YearOf(utc) + 1))
  {
  }

  /** What the whole clock promises: for any instant and any zone at most a day
      ahead of or behind UTC, the local day of the year recovers the local date. */
  lemma ClockDateIsExact(now: int, offset: int)
    requires -MILLIS_PER_DAY <= offset <= MILLIS_PER_DAY
    ensures
      var local := DateOf(DayOfMillis(now + offset));
      LocalDate(DayOfMillis(now), local.ordinal) == Some(local)
  {
    var utc, there := DayOfMillis(now), DayOfMillis(now + offset);
    assert -1 <= there - utc <= 1;
    DateRoundTrip(there);
    LocalDateIsExact(utc, DateOf(there));
  }
}
