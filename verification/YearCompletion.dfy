/**
 Completing a date without a year: _complete_year of services/date_resolution.py, with the
 leap-year rule of Appendix C of RFC 3339.
 */
module YearCompletion {
  import opened Prelude

  datatype Date = Date(year: int, month: int, day: int)

  const MAX_YEAR := 9999

  predicate IsLeap(year: int) {
    year % 4 == 0 && (year % 100 != 0 || year % 400 == 0)
  }

  function DaysIn(year: int, month: int): int {
    if month in {4, 6, 9, 11} then 30
    else if month != 2 then 31
    else if IsLeap(year) then 29
    else 28
  }

  predicate Valid(d: Date) {
    1 <= d.year <= MAX_YEAR && 1 <= d.month <= 12 && 1 <= d.day <= DaysIn(d.year, d.month)
  }

  predicate NotAfter(a: Date, b: Date) {
    a.year < b.year
    || (a.year == b.year && (a.month < b.month || (a.month == b.month && a.day <= b.day)))
  }

  // ---------- the scan ----------

  /** The first year from year down to above stop in which the month and day are a date not after ingest. */
  function Scan(year: int, stop: int, month: int, day: int, ingest: Date): Option<Date>
    requires stop <= year
    decreases year - stop
  {
    if year == stop then None
    else
      var candidate := Date(year, month, day);
      if Valid(candidate) && NotAfter(candidate, ingest) then Some(candidate)
      else Scan(year - 1, stop, month, day, ingest)
  }

  /** The nine years back from the year of ingest. */
  function CompleteYear(month: int, day: int, ingest: Date): Option<Date> {
    Scan(ingest.year, ingest.year - 9, month, day, ingest)
  }

  lemma {:induction false} ScanFindsLatest(year: int, stop: int, month: int, day: int, ingest: Date)
    requires stop <= year
    ensures match Scan(year, stop, month, day, ingest)
            case Some(d) =>
              && Valid(d) && NotAfter(d, ingest) && d == Date(d.year, month, day) && stop < d.year <= year
              && forall y | d.year < y <= year :: !Fits(y, month, day, ingest)
            case None => forall y | stop < y <= year :: !Fits(y, month, day, ingest)
    decreases year - stop
  {
    if stop < year {
      ScanFindsLatest(year - 1, stop, month, day, ingest);
    }
  }

  predicate Fits(year: int, month: int, day: int, ingest: Date) {
    Valid(Date(year, month, day)) && NotAfter(Date(year, month, day), ingest)
  }

  // ---------- nine years are enough ----------

  /** Of two multiples of four that follow each other one is a leap year, across any century. */
  lemma LeapNearby(year: int) returns (leap: int)
    ensures year - 8 < leap <= year && IsLeap(leap)
  {
    var last := year - year % 4;
    if IsLeap(last) {
      leap := last;
    } else {
      leap := last - 4;
    }
  }

  /** A month and day that exist in some year exist in one of the eight years before any year. */
  lemma RecentYear(month: int, day: int, some: int, year: int) returns (recent: int)
    requires Valid(Date(some, month, day)) && 9 <= year <= MAX_YEAR
    ensures year - 9 < recent < year && Valid(Date(recent, month, day))
  {
    if month == 2 && day == 29 {
      recent := LeapNearby(year - 1);
    } else {
      recent := year - 1;
    }
  }

  /**
   The completed date is the latest one with this month and day that is not after ingest;
   there is none exactly when no such date exists.
   */
  lemma CompletesToLatestPast(month: int, day: int, ingest: Date)
    requires Valid(ingest)
    ensures match CompleteYear(month, day, ingest)
            case Some(d) =>
              && Valid(d) && NotAfter(d, ingest) && d.month == month && d.day == day
              && forall e: Date | Valid(e) && NotAfter(e, ingest) && e.month == month && e.day == day :: NotAfter(e, d)
            case None => forall e: Date | Valid(e) && e.month == month && e.day == day :: !NotAfter(e, ingest)
  {
    ScanFindsLatest(ingest.year, ingest.year - 9, month, day, ingest);
    match CompleteYear(month, day, ingest) {
      case Some(d) =>
        forall e: Date | Valid(e) && NotAfter(e, ingest) && e.month == month && e.day == day ensures NotAfter(e, d) {
          assert e == Date(e.year, month, day);
          assert Fits(e.year, month, day, ingest);
        }
      case None =>
        forall e: Date | Valid(e) && e.month == month && e.day == day ensures !NotAfter(e, ingest) {
          assert e == Date(e.year, month, day);
          if ingest.year >= 9 {
            var recent := RecentYear(month, day, e.year, ingest.year);
            assert Fits(recent, month, day, ingest);
          }
          assert !Fits(e.year, month, day, ingest);
        }
    }
  }

  /** From year 9 on every month and day that exist in some year are completed. */
  lemma AlwaysCompletes(month: int, day: int, some: int, ingest: Date)
    requires Valid(ingest) && ingest.year >= 9 && Valid(Date(some, month, day))
    ensures CompleteYear(month, day, ingest).Some?
  {
    ScanFindsLatest(ingest.year, ingest.year - 9, month, day, ingest);
    var recent := RecentYear(month, day, some, ingest.year);
    assert Fits(recent, month, day, ingest);
  }

  /**
   Eight years would not do: 1900 is no leap year, so on 28 February 1904 the last 29 February is
   eight years back.
   */
  lemma NineYearsAreNeeded()
    ensures CompleteYear(2, 29, Date(1904, 2, 28)) == Some(Date(1896, 2, 29))
    ensures Scan(1904, 1896, 2, 29, Date(1904, 2, 28)) == None
  {
    var ingest := Date(1904, 2, 28);
    ScanFindsLatest(1904, 1896, 2, 29, ingest);
    CompletesToLatestPast(2, 29, ingest);
    assert Valid(Date(1896, 2, 29)) && NotAfter(Date(1896, 2, 29), ingest);
    var d := CompleteYear(2, 29, ingest);
    assert NotAfter(Date(1896, 2, 29), d.value);
  }

  // ---------- the calendar ----------

  function DaysUpTo(year: int, month: nat): int {
    if month == 0 then 0 else DaysUpTo(year, month - 1) + DaysIn(year, month)
  }

  /** The calendar: where every month begins in its year, 97 leap years in 400, and the years 1 to 9999. */
  lemma CalendarIs(year: int)
    ensures var leap := if IsLeap(year) then 1 else 0;
            && DaysUpTo(year, 1) == 31 && DaysUpTo(year, 2) == 59 + leap && DaysUpTo(year, 3) == 90 + leap
            && DaysUpTo(year, 4) == 120 + leap && DaysUpTo(year, 5) == 151 + leap && DaysUpTo(year, 6) == 181 + leap
            && DaysUpTo(year, 7) == 212 + leap && DaysUpTo(year, 8) == 243 + leap && DaysUpTo(year, 9) == 273 + leap
            && DaysUpTo(year, 10) == 304 + leap && DaysUpTo(year, 11) == 334 + leap && DaysUpTo(year, 12) == 365 + leap
    ensures IsLeap(2000) && IsLeap(2024) && !IsLeap(1900) && !IsLeap(2023)
    ensures IsLeap(year + 400) <==> IsLeap(year)
    ensures Valid(Date(1, 1, 1)) && Valid(Date(9999, 12, 31)) && !Valid(Date(0, 12, 31)) && !Valid(Date(10000, 1, 1))
  {
    assert DaysUpTo(year, 3) == DaysUpTo(year, 2) + 31;
    assert DaysUpTo(year, 6) == DaysUpTo(year, 5) + 30;
    assert DaysUpTo(year, 9) == DaysUpTo(year, 8) + 30;
  }
}
