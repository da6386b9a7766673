/** Calendar dates and their day numbers.

    A `time.Time` at midnight UTC is a whole number of days from 1 January of year 1, where Go's zero time
    starts; that number is what the database stores and what every comparison and subtraction looks at. The
    lemmas below show that a date and its number determine each other, so that from `Stays` on a date is
    represented by its number. */
module Calendar {

  /** A day number: 0 is 1 January of year 1. */
  type Day = int

  const NANOS_PER_DAY := 86_400_000_000_000
  const MAX_DURATION := 0x7fff_ffff_ffff_ffff
  const MIN_DURATION := -0x8000_0000_0000_0000
  const MAX_DURATION_DAYS := 106751

  /** Year, month and day, as the struct holds them; also the zero struct, which is no date. */
  datatype Date = Date(year: int, month: int, day: int)

  const ZERO_DATE := Date(0, 0, 0)

  predicate Leap(year: int) {
    year % 4 == 0 && (year % 100 != 0 || year % 400 == 0)
  }

  function DaysIn(year: int, month: int): int {
    if month == 2 then (if Leap(year) then 29 else 28)
    else if month == 4 || month == 6 || month == 9 || month == 11 then 30
    else 31
  }

  predicate Valid(d: Date) {
    1 <= d.month <= 12 && 1 <= d.day <= DaysIn(d.year, d.month)
  }

  function DaysBeforeYear(year: int): int {
    var p := year - 1;
    365 * p + p / 4 - p / 100 + p / 400
  }

  function DaysBeforeMonth(year: int, month: int): int {
    var leap := if Leap(year) then 1 else 0;
    match month
    case 1 => 0
    case 2 => 31
    case 3 => 59 + leap
    case 4 => 90 + leap
    case 5 => 120 + leap
    case 6 => 151 + leap
    case 7 => 181 + leap
    case 8 => 212 + leap
    case 9 => 243 + leap
    case 10 => 273 + leap
    case 11 => 304 + leap
    case 12 => 334 + leap
    case _ => 365 + leap
  }

  /** The first day of a month; a month outside 1..12 carries into the year, as in `time.Date`. */
  function MonthStart(year: int, month: int): Day {
    var y := year + (month - 1) / 12;
    DaysBeforeYear(y) + DaysBeforeMonth(y, (month - 1) % 12 + 1)
  }

  /** `Date.Time` as a day number; any day counts from the first of the month. */
  function DayNumber(d: Date): Day {
    MonthStart(d.year, d.month) + d.day - 1
  }

  /** The year that contains day `n`: whole cycles of 400, 100, 4 and 1 years, the last of each kind one day longer. */
  function YearOf(n: Day): int {
    var d400 := n % 146097;
    var n100 := if d400 == 146096 then 3 else d400 / 36524;
    var d100 := d400 - 36524 * n100;
    var n4 := d100 / 1461;
    var d4 := d100 - 1461 * n4;
    var n1 := if d4 == 1460 then 3 else d4 / 365;
    400 * (n / 146097) + 100 * n100 + 4 * n4 + n1 + 1
  }

  function MonthOf(year: int, yearDay: int): int {
    var leap := if Leap(year) then 1 else 0;
    if yearDay < 31 then 1
    else if yearDay < 59 + leap then 2
    else if yearDay < 90 + leap then 3
    else if yearDay < 120 + leap then 4
    else if yearDay < 151 + leap then 5
    else if yearDay < 181 + leap then 6
    else if yearDay < 212 + leap then 7
    else if yearDay < 243 + leap then 8
    else if yearDay < 273 + leap then 9
    else if yearDay < 304 + leap then 10
    else if yearDay < 334 + leap then 11
    else 12
  }

  /** `DateOf` of midnight on day `n`. */
  function DateOf(n: Day): Date {
    var year := YearOf(n);
    var yearDay := n - DaysBeforeYear(year);
    var month := MonthOf(year, yearDay);
    Date(year, month, yearDay - DaysBeforeMonth(year, month) + 1)
  }

  function NewDate(year: int, month: int, day: int): Date {
    DateOf(DayNumber(Date(year, month, day)))
  }

  /** `AddDate(0, 0, n)`: the day field moves and the result is normalised. */
  function AddDays(d: Date, n: int): Date {
    NewDate(d.year, d.month, d.day + n)
  }

  predicate Before(d: Date, o: Date) {
    DayNumber(d) < DayNumber(o)
  }

  /** `Time.Sub` saturates at the ends of int64 nanoseconds. */
  function Sub(a: Day, b: Day): int {
    var exact := (a - b) * NANOS_PER_DAY;
    if exact > MAX_DURATION then MAX_DURATION else if exact < MIN_DURATION then MIN_DURATION else exact
  }

  /** Go's integer division truncates towards zero. */
  function DaysBetween(from: Day, to: Day): int {
    var d := Sub(to, from);
    if d >= 0 then d / NANOS_PER_DAY else -(-d / NANOS_PER_DAY)
  }

  function DaysUntil(d: Date, o: Date): int {
    DaysBetween(DayNumber(d), DayNumber(o))
  }

  // Years and their days

  lemma YearLength(year: int)
    ensures DaysBeforeYear(year + 1) == DaysBeforeYear(year) + 365 + (if Leap(year) then 1 else 0)
  {
    QuotientSteps(year - 1, year);
    Divides(year);
  }

  lemma Divides(year: int)
    ensures year % 100 == 0 ==> year % 4 == 0
    ensures year % 400 == 0 ==> year % 100 == 0
  {
  }

  lemma QuotientSteps(p: int, next: int)
    requires next == p + 1
    ensures next / 4 == p / 4 + (if next % 4 == 0 then 1 else 0)
    ensures next / 100 == p / 100 + (if next % 100 == 0 then 1 else 0)
    ensures next / 400 == p / 400 + (if next % 400 == 0 then 1 else 0)
  {
  }

  lemma {:induction false} YearsApart(year: int, later: int)
    requires year <= later
    ensures DaysBeforeYear(year) + 365 * (later - year) <= DaysBeforeYear(later)
    decreases later - year
  {
    if year == later {
    } else {
      YearsApart(year, later - 1);
      YearLength(later - 1);
    }
  }

  lemma YearOfIsRight(n: Day)
    ensures DaysBeforeYear(YearOf(n)) <= n < DaysBeforeYear(YearOf(n) + 1)
  {
    var a, d400 := n / 146097, n % 146097;
    var b := if d400 == 146096 then 3 else d400 / 36524;
    var d100 := d400 - 36524 * b;
    var c := d100 / 1461;
    var d4 := d100 - 1461 * c;
    var e := if d4 == 1460 then 3 else d4 / 365;
    assert 0 <= b <= 3 && 0 <= d100 <= 36524 && (d100 == 36524 ==> b == 3);
    assert 0 <= c <= 24 && 0 <= d4 <= 1460;
    assert 0 <= e <= 3 && 0 <= d4 - 365 * e <= 365;
    CyclesOf(a, b, c, e);
    YearLength(YearOf(n));
  }

  lemma CyclesOf(a: int, b: int, c: int, e: int)
    requires 0 <= b <= 3 && 0 <= c <= 24 && 0 <= e <= 3
    ensures DaysBeforeYear(400 * a + 100 * b + 4 * c + e + 1) == 146097 * a + 36524 * b + 1461 * c + 365 * e
    ensures Leap(400 * a + 100 * b + 4 * c + e + 1) <==> e == 3 && (c != 24 || b == 3)
  {
    var p := 400 * a + 100 * b + 4 * c + e;
    QuotientsOf(a, b, c, e, p);
    EndsCycle(p, p + 1);
  }

  lemma QuotientsOf(a: int, b: int, c: int, e: int, p: int)
    requires 0 <= b <= 3 && 0 <= c <= 24 && 0 <= e <= 3
    requires p == 400 * a + 100 * b + 4 * c + e
    ensures p / 4 == 100 * a + 25 * b + c && p % 4 == e
    ensures p / 100 == 4 * a + b && p % 100 == 4 * c + e
    ensures p / 400 == a && p % 400 == 100 * b + 4 * c + e
  {
  }

  lemma EndsCycle(p: int, next: int)
    requires next == p + 1
    ensures next % 4 == 0 <==> p % 4 == 3
    ensures next % 100 == 0 <==> p % 100 == 99
    ensures next % 400 == 0 <==> p % 400 == 399
  {
    QuotientSteps(p, next);
  }

  lemma YearIsUnique(n: Day, year: int)
    requires DaysBeforeYear(year) <= n < DaysBeforeYear(year + 1)
    ensures YearOf(n) == year
  {
    YearOfIsRight(n);
    if YearOf(n) < year {
      YearsApart(YearOf(n) + 1, year);
    } else if year < YearOf(n) {
      YearsApart(year + 1, YearOf(n));
    }
  }

  // Dates and day numbers determine each other

  lemma MonthIsRight(year: int, yearDay: int)
    requires 0 <= yearDay < 365 + (if Leap(year) then 1 else 0)
    ensures Valid(Date(year, MonthOf(year, yearDay), yearDay - DaysBeforeMonth(year, MonthOf(year, yearDay)) + 1))
  {
  }

  lemma MonthIsUnique(d: Date)
    requires Valid(d)
    ensures MonthOf(d.year, DaysBeforeMonth(d.year, d.month) + d.day - 1) == d.month
    ensures 0 <= DaysBeforeMonth(d.year, d.month) + d.day - 1 < 365 + (if Leap(d.year) then 1 else 0)
  {
  }

  lemma NumberOfParts(d: Date)
    requires 1 <= d.month <= 12
    ensures DayNumber(d) == DaysBeforeYear(d.year) + DaysBeforeMonth(d.year, d.month) + d.day - 1
  {
    assert (d.month - 1) / 12 == 0 && (d.month - 1) % 12 == d.month - 1;
  }

  lemma NumberOfDate(n: Day)
    ensures Valid(DateOf(n)) && DayNumber(DateOf(n)) == n
  {
    var year := YearOf(n);
    YearOfIsRight(n);
    YearLength(year);
    MonthIsRight(year, n - DaysBeforeYear(year));
    NumberOfParts(DateOf(n));
  }

  lemma DateOfNumber(d: Date)
    requires Valid(d)
    ensures DateOf(DayNumber(d)) == d
  {
    NumberOfParts(d);
    MonthIsUnique(d);
    YearLength(d.year);
    YearIsUnique(DayNumber(d), d.year);
  }

  predicate EarlierInCalendar(d: Date, o: Date) {
    d.year < o.year || (d.year == o.year && (d.month < o.month || (d.month == o.month && d.day < o.day)))
  }

  lemma EarlierHasSmallerNumber(d: Date, o: Date)
    requires Valid(d) && Valid(o) && EarlierInCalendar(d, o)
    ensures Before(d, o)
  {
    hide DaysBeforeYear, DaysBeforeMonth, DayNumber, DaysIn, Leap;
    NumberOfParts(d);
    NumberOfParts(o);
    if d.year < o.year {
      MonthIsUnique(d);
      MonthIsUnique(o);
      YearLength(d.year);
      YearsApart(d.year + 1, o.year);
    } else if d.month < o.month {
      MonthsApart(d.year, d.month, o.month);
    }
  }

  lemma MonthsApart(year: int, month: int, later: int)
    requires 1 <= month < later <= 12
    ensures DaysBeforeMonth(year, month) + DaysIn(year, month) <= DaysBeforeMonth(year, later)
  {
  }

  /** `Compare` looks at instants; on dates it is the order of year, then month, then day. */
  lemma ComparesAsCalendar(d: Date, o: Date)
    requires Valid(d) && Valid(o)
    ensures Before(d, o) <==> EarlierInCalendar(d, o)
    ensures DayNumber(d) == DayNumber(o) <==> d == o
  {
    if EarlierInCalendar(d, o) {
      EarlierHasSmallerNumber(d, o);
    } else if d != o {
      EarlierHasSmallerNumber(o, d);
    }
  }

  lemma DayCarries(d: Date, n: int)
    ensures DayNumber(d.(day := d.day + n)) == DayNumber(d) + n
  {
  }

  lemma DateOfSameNumber(e: Date, n: Day)
    requires DayNumber(e) == n
    ensures DateOf(DayNumber(e)) == DateOf(n)
  {
  }

  lemma AddDaysNumber(d: Date, n: int, k: Day)
    requires k == DayNumber(d) + n
    ensures AddDays(d, n) == DateOf(k)
  {
    var moved := d.(day := d.day + n);
    assert AddDays(d, n) == DateOf(DayNumber(moved));
    DateOfSameNumber(moved, k) by {
      DayCarries(d, n);
    }
  }

  lemma NumberOf(e: Date, n: Day)
    requires e == DateOf(n)
    ensures DayNumber(e) == n
  {
    NumberOfDate(n);
  }

  /** Adding days is addition of day numbers ... */
  lemma AddDaysIsAddition(d: Date, n: int)
    ensures DayNumber(AddDays(d, n)) == DayNumber(d) + n
  {
    AddDaysNumber(d, n, DayNumber(d) + n);
    NumberOf(AddDays(d, n), DayNumber(d) + n);
  }

  /** ... so steps compose. */
  lemma AddDaysComposes(d: Date, m: int, n: int, both: int)
    requires both == m + n
    ensures AddDays(AddDays(d, m), n) == AddDays(d, both)
  {
    AddDaysIsAddition(d, m);
    AddDaysMeet(AddDays(d, m), n, d, both);
  }

  lemma AddDaysMeet(d: Date, n: int, e: Date, m: int)
    requires DayNumber(d) + n == DayNumber(e) + m
    ensures AddDays(d, n) == AddDays(e, m)
  {
    AddDaysNumber(d, n, DayNumber(d) + n);
    AddDaysNumber(e, m, DayNumber(d) + n);
  }

  /** Counting days is exact within the range of a duration, and sticks at its ends outside. */
  lemma DaysBetweenSaturates(from: Day, to: Day)
    ensures DaysBetween(from, to) ==
            if to - from > MAX_DURATION_DAYS then MAX_DURATION_DAYS
            else if to - from < -MAX_DURATION_DAYS then -MAX_DURATION_DAYS
            else to - from
  {
    var n := to - from;
    if 0 <= n <= MAX_DURATION_DAYS {
      assert n * NANOS_PER_DAY <= MAX_DURATION;
      assert n * NANOS_PER_DAY / NANOS_PER_DAY == n;
    } else if -MAX_DURATION_DAYS <= n < 0 {
      assert -n * NANOS_PER_DAY / NANOS_PER_DAY == -n;
    }
  }

  lemma DaysUntilAddDays(d: Date, n: int)
    ensures DaysUntil(d, AddDays(d, n)) == n <==> -MAX_DURATION_DAYS <= n <= MAX_DURATION_DAYS
  {
    AddDaysIsAddition(d, n);
    DaysBetweenSaturates(DayNumber(d), DayNumber(AddDays(d, n)));
  }
}
