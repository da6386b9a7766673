/** Stays: half-open intervals of one to thirty days. */
module Stays {
  import opened Results
  import opened Calendar
  import opened Collections

  const MAX_STAY_NIGHTS := 30

  datatype Span = Span(checkIn: Day, checkOut: Day)

  predicate ValidSpan(s: Span) {
    1 <= s.checkOut - s.checkIn <= MAX_STAY_NIGHTS
  }

  /** The fields are private and `NewStay` is the only constructor, so every stay is a valid span. */
  type Stay = s: Span | ValidSpan(s) witness Span(0, 1)

  /** Two dates make a stay exactly when neither is the zero date and their true distance is 1 to 30 days, although
      the length compared with the maximum is a saturating subtraction of durations. */
  function NewStay(checkIn: Date, checkOut: Date): (r: Result<Stay>)
    ensures r.Ok? <==> checkIn != ZERO_DATE && checkOut != ZERO_DATE
                       && 1 <= DayNumber(checkOut) - DayNumber(checkIn) <= MAX_STAY_NIGHTS
    ensures r == Err(StayTooLong) <==> checkIn != ZERO_DATE && checkOut != ZERO_DATE
                                       && MAX_STAY_NIGHTS < DayNumber(checkOut) - DayNumber(checkIn)
    ensures r.Err? ==> r.error in {InvalidStay, StayTooLong}
    ensures r.Ok? ==> r.value == Span(DayNumber(checkIn), DayNumber(checkOut))
  {
    DaysBetweenSaturates(DayNumber(checkIn), DayNumber(checkOut));
    if checkIn == ZERO_DATE || checkOut == ZERO_DATE then Err(InvalidStay)
    else if !Before(checkIn, checkOut) then Err(InvalidStay)
    else if DaysUntil(checkIn, checkOut) > MAX_STAY_NIGHTS then Err(StayTooLong)
    else Ok(Span(DayNumber(checkIn), DayNumber(checkOut)))
  }

  /** `NewStay` on dates read from the database, in day numbers. */
  function StayOfDays(checkIn: Day, checkOut: Day): Result<Stay> {
    if checkOut <= checkIn then Err(InvalidStay)
    else if checkOut - checkIn > MAX_STAY_NIGHTS then Err(StayTooLong)
    else Ok(Span(checkIn, checkOut))
  }

  lemma StayOfDaysIsNewStay(checkIn: Day, checkOut: Day)
    ensures NewStay(DateOf(checkIn), DateOf(checkOut)) == StayOfDays(checkIn, checkOut)
  {
    DayIs(checkIn);
    DayIs(checkOut);
    StayOfDates(DateOf(checkIn), DateOf(checkOut), checkIn, checkOut);
  }

  lemma StayOfDates(d: Date, o: Date, checkIn: Day, checkOut: Day)
    requires d != ZERO_DATE && o != ZERO_DATE && DayNumber(d) == checkIn && DayNumber(o) == checkOut
    ensures NewStay(d, o) == StayOfDays(checkIn, checkOut)
  {
  }

  function Nights(s: Stay): int {
    s.checkOut - s.checkIn
  }

  /** The number of nights is the saturating day count, which a stay is too short to saturate. */
  lemma NightsIsDayCount(s: Stay)
    ensures DaysBetween(s.checkIn, s.checkOut) == Nights(s)
  {
    DaysBetweenSaturates(s.checkIn, s.checkOut);
  }

  predicate Contains(s: Stay, d: Day) {
    !(d < s.checkIn) && d < s.checkOut
  }

  predicate Overlaps(s: Stay, o: Stay) {
    s.checkIn < o.checkOut && o.checkIn < s.checkOut
  }

  /** The days slept: consecutive, as many as `Nights`, and precisely those the stay contains. */
  function DaysOf(s: Stay): (days: seq<Day>)
    ensures |days| == Nights(s)
    ensures forall d :: d in days <==> Contains(s, d)
    ensures forall i :: 0 <= i < |days| ==> days[i] == s.checkIn + i
  {
    Range(s.checkIn, s.checkOut)
  }

  /** Two stays overlap exactly when some night is slept in both. */
  lemma OverlapIsSharedNight(s: Stay, o: Stay)
    ensures Overlaps(s, o) <==> exists d :: Contains(s, d) && Contains(o, d)
  {
    var later := if s.checkIn < o.checkIn then o.checkIn else s.checkIn;
    assert Overlaps(s, o) ==> Contains(s, later) && Contains(o, later);
  }

  predicate IsDay(d: Date, k: Day) {
    d == DateOf(k) && DayNumber(d) == k && d != ZERO_DATE
  }

  lemma DayIs(k: Day)
    ensures IsDay(DateOf(k), k)
  {
    NumberOfDate(k);
  }

  lemma NextDay(d: Date, k: Day, next: Day)
    requires IsDay(d, k) && next == k + 1
    ensures IsDay(AddDays(d, 1), next)
  {
    AddDaysNumber(d, 1, next);
    NumberOfDate(next);
  }

  predicate Lists(dates: seq<Date>, from: Day) {
    forall i {:trigger dates[i]} :: 0 <= i < |dates| ==> IsDay(dates[i], from + i)
  }

  lemma ListsOneMore(dates: seq<Date>, from: Day, d: Date, k: Day)
    requires Lists(dates, from) && IsDay(d, k) && k == from + |dates|
    ensures Lists(dates + [d], from)
  {
    forall i | 0 <= i < |dates| + 1 ensures IsDay((dates + [d])[i], from + i) {
      if i == |dates| {
      } else {
        assert (dates + [d])[i] == dates[i];
      }
    }
  }

  lemma BeforeIsBefore(d: Date, k: Day, last: Date, end: Day)
    requires IsDay(d, k) && IsDay(last, end)
    ensures Before(d, last) <==> k < end
  {
  }

  /** The loop over calendar dates stops, and yields exactly the dates of the days slept, in order. */
  method Dates(s: Stay) returns (dates: seq<Date>)
    ensures |dates| == Nights(s) && Lists(dates, s.checkIn)
  {
    var d, last := DateOf(s.checkIn), DateOf(s.checkOut);
    ghost var k := s.checkIn;
    dates := [];
    DayIs(s.checkIn);
    DayIs(s.checkOut);
    BeforeIsBefore(d, k, last, s.checkOut);
    while Before(d, last)
      invariant s.checkIn <= k <= s.checkOut && k == s.checkIn + |dates|
      invariant IsDay(d, k) && IsDay(last, s.checkOut)
      invariant Before(d, last) <==> k < s.checkOut
      invariant Lists(dates, s.checkIn)
      decreases s.checkOut - k
    {
      ListsOneMore(dates, s.checkIn, d, k);
      NextDay(d, k, k + 1);
      BeforeIsBefore(AddDays(d, 1), k + 1, last, s.checkOut);
      dates := dates + [d];
      d := AddDays(d, 1);
      k := k + 1;
    }
  }
}
