/** Quotes: the price of each night of a stay, and their total. */
module Pricing {
  import opened Results
  import opened Words
  import opened Calendar
  import opened Stays
  import opened Moneys

  datatype RateDay = RateDay(date: Day, price: Money, minStay: int, closedToArrival: bool, closedToDeparture: bool)
  datatype Night = Night(date: Day, price: Money)
  datatype Quote = Quote(stay: Stay, nights: seq<Night>, total: Money)

  /** With prices up to this many cents, thirty nights add up without wrapping. */
  const MAX_EXACT_PRICE := 307445734561825860

  /** The rate list indexed by date; a later entry for the same date replaces an earlier one. */
  function ByDate(rates: seq<RateDay>): (m: map<Day, RateDay>) {
    if rates == [] then map[] else
      var last := rates[|rates| - 1];
      ByDate(rates[..|rates| - 1])[last.date := last]
  }

  /** The nights from `d` on, added to what has been collected so far. */
  function PriceNights(byDate: map<Day, RateDay>, d: Day, checkOut: Day, total: Money, nights: seq<Night>)
    : Result<(Money, seq<Night>)>
    requires d <= checkOut
    decreases checkOut - d
  {
    if d == checkOut then Ok((total, nights))
    else if d !in byDate then Err(RateUnavailable)
    else if byDate[d].price.currency == "" then Err(RateWithoutCurrency)
    else
      var sum :- Add(total, byDate[d].price);
      PriceNights(byDate, d + 1, checkOut, sum, nights + [Night(d, byDate[d].price)])
  }

  function QuoteFrom(stay: Stay, byDate: map<Day, RateDay>): Result<Quote> {
    if stay.checkIn in byDate && byDate[stay.checkIn].closedToArrival then Err(ClosedToArrival)
    else if stay.checkOut in byDate && byDate[stay.checkOut].closedToDeparture then Err(ClosedToDeparture)
    else
      var (total, nights) :- PriceNights(byDate, stay.checkIn, stay.checkOut, NOTHING, []);
      if stay.checkIn in byDate && byDate[stay.checkIn].minStay > Nights(stay) then Err(MinStayNotMet)
      else Ok(Quote(stay, nights, total))
  }

  function QuoteFor(stay: Stay, rates: seq<RateDay>): Result<Quote> {
    QuoteFrom(stay, ByDate(rates))
  }

  method Calculate(stay: Stay, rates: seq<RateDay>) returns (r: Result<Quote>)
    ensures r == QuoteFor(stay, rates)
  {
    var byDate: map<Day, RateDay> := map[];
    for i := 0 to |rates|
      invariant byDate == ByDate(rates[..i])
    {
      assert rates[..i + 1][..i] == rates[..i];
      byDate := byDate[rates[i].date := rates[i]];
    }
    assert rates[..|rates|] == rates;

    if stay.checkIn in byDate && byDate[stay.checkIn].closedToArrival {
      return Err(ClosedToArrival);
    }
    if stay.checkOut in byDate && byDate[stay.checkOut].closedToDeparture {
      return Err(ClosedToDeparture);
    }

    var nights, total := [], NOTHING;
    ghost var goal := PriceNights(byDate, stay.checkIn, stay.checkOut, NOTHING, []);
    for d := stay.checkIn to stay.checkOut
      invariant PriceNights(byDate, d, stay.checkOut, total, nights) == goal
    {
      if d !in byDate {
        return Err(RateUnavailable);
      }
      if byDate[d].price.currency == "" {
        return Err(RateWithoutCurrency);
      }
      var sum := Add(total, byDate[d].price);
      if sum.Err? {
        return Err(sum.error);
      }
      total := sum.value;
      nights := nights + [Night(d, byDate[d].price)];
    }

    if stay.checkIn in byDate && byDate[stay.checkIn].minStay > Nights(stay) {
      return Err(MinStayNotMet);
    }
    return Ok(Quote(stay, nights, total));
  }

  /** The sum `Validate` recomputes. */
  function AddUp(nights: seq<Night>, total: Money): Result<Money> {
    if nights == [] then Ok(total)
    else if nights[0].price.currency == "" then Err(InvalidQuote)
    else
      var sum :- Add(total, nights[0].price);
      AddUp(nights[1..], sum)
  }

  function QuoteError(q: Quote): Option<Error> {
    if |q.nights| != Nights(q.stay) then Some(InvalidQuote)
    else match AddUp(q.nights, NOTHING)
      case Err(e) => Some(e)
      case Ok(total) => if total != q.total then Some(InvalidQuote) else None
  }

  method Validate(q: Quote) returns (e: Option<Error>)
    ensures e == QuoteError(q)
  {
    if |q.nights| != Nights(q.stay) {
      return Some(InvalidQuote);
    }
    var total := NOTHING;
    for i := 0 to |q.nights|
      invariant AddUp(q.nights[i..], total) == AddUp(q.nights, NOTHING)
    {
      if q.nights[i].price.currency == "" {
        return Some(InvalidQuote);
      }
      var sum := Add(total, q.nights[i].price);
      if sum.Err? {
        return Some(sum.error);
      }
      assert q.nights[i..][1..] == q.nights[i + 1..];
      total := sum.value;
    }
    if total != q.total {
      return Some(InvalidQuote);
    }
    return None;
  }

  // What a quote is

  function SumCents(m: map<Day, RateDay>, a: Day, b: Day): int
    requires a <= b
    requires forall d | a <= d < b :: d in m
    decreases b - a
  {
    if a == b then 0 else m[a].price.cents + SumCents(m, a + 1, b)
  }

  predicate PricedIn(m: map<Day, RateDay>, a: Day, b: Day, currency: string) {
    forall d | a <= d < b :: d in m && m[d].price.currency == currency
  }

  function NightsOf(m: map<Day, RateDay>, a: Day, b: Day): seq<Night>
    requires a <= b
    requires forall d | a <= d < b :: d in m
  {
    seq(b - a, i requires 0 <= i < b - a => Night(a + i, m[a + i].price))
  }

  lemma {:induction false} PriceNightsOnceStarted(m: map<Day, RateDay>, d: Day, checkOut: Day, total: Money,
                                                  nights: seq<Night>)
    requires d <= checkOut && total.currency != ""
    ensures var r := PriceNights(m, d, checkOut, total, nights);
            && (r.Ok? <==> PricedIn(m, d, checkOut, total.currency))
            && (r.Ok? ==> r.value == (Money(Wrap64(total.cents + SumCents(m, d, checkOut)), total.currency),
                                      nights + NightsOf(m, d, checkOut)))
    decreases checkOut - d
  {
    if d < checkOut && d in m && m[d].price.currency == total.currency {
      var sum := Money(Wrap64(total.cents + m[d].price.cents), total.currency);
      PriceNightsOnceStarted(m, d + 1, checkOut, sum, nights + [Night(d, m[d].price)]);
      if PricedIn(m, d + 1, checkOut, total.currency) {
        WrapAdd(total.cents + m[d].price.cents, SumCents(m, d + 1, checkOut));
        assert nights + NightsOf(m, d, checkOut) == nights + [Night(d, m[d].price)] + NightsOf(m, d + 1, checkOut);
      }
    } else if d == checkOut {
      assert nights + NightsOf(m, d, checkOut) == nights;
    }
  }

  /** What must hold of the calendar for a stay to be quoted. */
  predicate Sellable(stay: Stay, m: map<Day, RateDay>) {
    && (forall d | stay.checkIn <= d < stay.checkOut :: d in m)
    && m[stay.checkIn].price.currency != ""
    && PricedIn(m, stay.checkIn, stay.checkOut, m[stay.checkIn].price.currency)
    && !m[stay.checkIn].closedToArrival
    && (stay.checkOut in m ==> !m[stay.checkOut].closedToDeparture)
    && m[stay.checkIn].minStay <= Nights(stay)
  }

  /** A stay is quoted exactly when it is sellable; the quote lists the published price of every night in order,
      and its total is their sum modulo two to the 64. */
  lemma CalculateSucceedsIff(stay: Stay, rates: seq<RateDay>)
    ensures var m, r := ByDate(rates), QuoteFor(stay, rates);
            && (r.Ok? <==> Sellable(stay, m))
            && (r.Ok? ==>
                  r.value == Quote(stay, NightsOf(m, stay.checkIn, stay.checkOut),
                                   Money(Wrap64(SumCents(m, stay.checkIn, stay.checkOut)),
                                         m[stay.checkIn].price.currency)))
  {
    var m, d := ByDate(rates), stay.checkIn;
    if d in m && m[d].price.currency != "" {
      PriceNightsOnceStarted(m, d + 1, stay.checkOut, m[d].price, [Night(d, m[d].price)]);
      assert PriceNights(m, d, stay.checkOut, NOTHING, []) ==
             PriceNights(m, d + 1, stay.checkOut, m[d].price, [] + [Night(d, m[d].price)]);
      assert [] + [Night(d, m[d].price)] == [Night(d, m[d].price)];
      if PricedIn(m, d + 1, stay.checkOut, m[d].price.currency) {
        assert NightsOf(m, d, stay.checkOut) == [Night(d, m[d].price)] + NightsOf(m, d + 1, stay.checkOut);
      }
    }
  }

  lemma {:induction false} StopsAt(m: map<Day, RateDay>, d: Day, checkOut: Day, total: Money, nights: seq<Night>, stop: Day)
    requires d <= stop < checkOut && total.currency != ""
    requires PricedIn(m, d, stop, total.currency) && !(stop in m && m[stop].price.currency == total.currency)
    ensures PriceNights(m, d, checkOut, total, nights) ==
            Err(if stop !in m then RateUnavailable else if m[stop].price.currency == "" then RateWithoutCurrency
                else CurrencyMismatch)
    decreases stop - d
  {
    if d == stop {
    } else {
      StopsAt(m, d + 1, checkOut, Money(Wrap64(total.cents + m[d].price.cents), total.currency),
              nights + [Night(d, m[d].price)], stop);
    }
  }

  predicate ArrivalClosed(stay: Stay, m: map<Day, RateDay>) {
    stay.checkIn in m && m[stay.checkIn].closedToArrival
  }

  predicate DepartureClosed(stay: Stay, m: map<Day, RateDay>) {
    stay.checkOut in m && m[stay.checkOut].closedToDeparture
  }

  /** The first night that has no rate, or one without a currency or in another than the nights before. */
  predicate FirstUnpriced(stay: Stay, m: map<Day, RateDay>, d: Day) {
    && stay.checkIn <= d < stay.checkOut
    && (d == stay.checkIn ==> d !in m || m[d].price.currency == "")
    && (d > stay.checkIn ==>
          && stay.checkIn in m && m[stay.checkIn].price.currency != ""
          && PricedIn(m, stay.checkIn, d, m[stay.checkIn].price.currency)
          && (d !in m || m[d].price.currency != m[stay.checkIn].price.currency))
  }

  lemma UnpricedNight(stay: Stay, m: map<Day, RateDay>, d: Day)
    requires FirstUnpriced(stay, m, d)
    ensures PriceNights(m, stay.checkIn, stay.checkOut, NOTHING, []) ==
            Err(if d !in m then RateUnavailable else if m[d].price.currency == "" then RateWithoutCurrency
                else CurrencyMismatch)
  {
    var a := stay.checkIn;
    if d > a {
      StopsAt(m, a + 1, stay.checkOut, m[a].price, [Night(a, m[a].price)], d);
      assert [] + [Night(a, m[a].price)] == [Night(a, m[a].price)];
    }
  }

  lemma {:induction false} SomeUnpriced(stay: Stay, m: map<Day, RateDay>, n: Day) returns (d: Day)
    requires stay.checkIn in m && m[stay.checkIn].price.currency != "" && stay.checkIn < n <= stay.checkOut
    requires !PricedIn(m, stay.checkIn, n, m[stay.checkIn].price.currency)
    ensures FirstUnpriced(stay, m, d)
    decreases n - stay.checkIn
  {
    if n == stay.checkIn + 1 || PricedIn(m, stay.checkIn, n - 1, m[stay.checkIn].price.currency) {
      d := n - 1;
    } else {
      d := SomeUnpriced(stay, m, n - 1);
    }
  }

  /** Which refusal answers which obstacle, the first that applies: a first day closed to arrival; a day of departure
      closed to it; a night that cannot be priced, the first such; too few nights. */
  lemma RefusalsAre(stay: Stay, rates: seq<RateDay>)
    ensures var m, r := ByDate(rates), QuoteFor(stay, rates);
            if ArrivalClosed(stay, m) then r == Err(ClosedToArrival)
            else if DepartureClosed(stay, m) then r == Err(ClosedToDeparture)
            else if exists d :: FirstUnpriced(stay, m, d) then
              forall d :: FirstUnpriced(stay, m, d) ==>
                r == Err(if d !in m then RateUnavailable else if m[d].price.currency == "" then RateWithoutCurrency
                         else CurrencyMismatch)
            else
              && stay.checkIn in m && (r.Ok? <==> m[stay.checkIn].minStay <= Nights(stay))
              && (r.Err? ==> r == Err(MinStayNotMet))
  {
    hide FirstUnpriced;
    var m := ByDate(rates);
    if exists d :: FirstUnpriced(stay, m, d) {
      forall d | FirstUnpriced(stay, m, d)
        ensures PriceNights(m, stay.checkIn, stay.checkOut, NOTHING, []) ==
                Err(if d !in m then RateUnavailable else if m[d].price.currency == "" then RateWithoutCurrency
                    else CurrencyMismatch)
      {
        UnpricedNight(stay, m, d);
      }
    } else {
      AllPriced(stay, m);
      CalculateSucceedsIff(stay, rates);
    }
  }

  lemma AllPriced(stay: Stay, m: map<Day, RateDay>)
    requires forall d :: !FirstUnpriced(stay, m, d)
    ensures stay.checkIn in m && m[stay.checkIn].price.currency != ""
    ensures PricedIn(m, stay.checkIn, stay.checkOut, m[stay.checkIn].price.currency)
    ensures PriceNights(m, stay.checkIn, stay.checkOut, NOTHING, []).Ok?
  {
    var a := stay.checkIn;
    assert !FirstUnpriced(stay, m, a);
    if !PricedIn(m, a, stay.checkOut, m[a].price.currency) {
      var d := SomeUnpriced(stay, m, stay.checkOut);
    }
    PriceNightsOnceStarted(m, a + 1, stay.checkOut, m[a].price, [] + [Night(a, m[a].price)]);
  }

  lemma {:induction false} SumWithinBound(m: map<Day, RateDay>, a: Day, b: Day)
    requires a <= b && forall d | a <= d < b :: d in m
    requires forall d | a <= d < b :: 0 <= m[d].price.cents <= MAX_EXACT_PRICE
    ensures 0 <= SumCents(m, a, b) <= (b - a) * MAX_EXACT_PRICE
    decreases b - a
  {
    if a == b {
    } else {
      SumWithinBound(m, a + 1, b);
    }
  }

  /** The total is the true sum if and only if that sum fits an int64. A larger one wraps, to a negative total or to a
      smaller one. */
  lemma TotalIsExactIff(stay: Stay, rates: seq<RateDay>)
    requires QuoteFor(stay, rates).Ok?
    ensures var m := ByDate(rates);
            && Sellable(stay, m)
            && (QuoteFor(stay, rates).value.total.cents == SumCents(m, stay.checkIn, stay.checkOut) <==>
                -TWO_63 <= SumCents(m, stay.checkIn, stay.checkOut) < TWO_63)
  {
    hide SumCents, PricedIn;
    CalculateSucceedsIff(stay, rates);
  }

  /** With prices in bound the total is the true sum. */
  lemma TotalIsExact(stay: Stay, rates: seq<RateDay>)
    requires QuoteFor(stay, rates).Ok?
    requires forall d | d in ByDate(rates) :: 0 <= ByDate(rates)[d].price.cents <= MAX_EXACT_PRICE
    ensures var m := ByDate(rates);
            && Sellable(stay, m)
            && QuoteFor(stay, rates).value.total.cents == SumCents(m, stay.checkIn, stay.checkOut)
  {
    CalculateSucceedsIff(stay, rates);
    SumWithinBound(ByDate(rates), stay.checkIn, stay.checkOut);
  }

  lemma {:induction false} AddUpOfPriced(m: map<Day, RateDay>, d: Day, checkOut: Day, total: Money, nights: seq<Night>)
    requires d <= checkOut
    requires PriceNights(m, d, checkOut, total, nights).Ok?
    ensures var (sum, all) := PriceNights(m, d, checkOut, total, nights).value;
            && |all| == |nights| + checkOut - d
            && all[..|nights|] == nights
            && AddUp(all[|nights|..], total) == Ok(sum)
    decreases checkOut - d
  {
    if d == checkOut {
    } else {
      var longer := nights + [Night(d, m[d].price)];
      var sum := Add(total, m[d].price).value;
      AddUpOfPriced(m, d + 1, checkOut, sum, longer);
      var all := PriceNights(m, d, checkOut, total, nights).value.1;
      assert all[..|longer|] == longer;
      assert all[|nights|] == longer[|nights|];
      assert all[..|nights|] == all[..|longer|][..|nights|] == nights;
      assert all[|nights|..][1..] == all[|longer|..];
    }
  }

  /** Every quote `Calculate` returns passes `Validate`, wrapped total or not. */
  lemma QuotesValidate(stay: Stay, rates: seq<RateDay>)
    requires QuoteFor(stay, rates).Ok?
    ensures QuoteError(QuoteFor(stay, rates).value) == None
  {
    var m := ByDate(rates);
    AddUpOfPriced(m, stay.checkIn, stay.checkOut, NOTHING, []);
    var q := QuoteFor(stay, rates).value;
    assert q.nights[0..] == q.nights;
  }

  function SumPrices(nights: seq<Night>): int {
    if nights == [] then 0 else nights[0].price.cents + SumPrices(nights[1..])
  }

  predicate OneCurrency(nights: seq<Night>, currency: string) {
    forall i :: 0 <= i < |nights| ==> nights[i].price.currency == currency
  }

  lemma {:induction false} AddUpIff(nights: seq<Night>, total: Money)
    requires total.currency != ""
    ensures AddUp(nights, total).Ok? <==> OneCurrency(nights, total.currency)
    ensures OneCurrency(nights, total.currency) ==>
              AddUp(nights, total) == Ok(Money(Wrap64(total.cents + SumPrices(nights)), total.currency))
    ensures AddUp(nights, total).Err? ==> AddUp(nights, total).error in {InvalidQuote, CurrencyMismatch}
    decreases |nights|
  {
    if nights == [] {
    } else {
      assert OneCurrency(nights, total.currency) ==> OneCurrency(nights[1..], total.currency);
      if nights[0].price.currency == total.currency {
        var sum := Money(Wrap64(total.cents + nights[0].price.cents), total.currency);
        AddUpIff(nights[1..], sum);
        WrapAdd(total.cents + nights[0].price.cents, SumPrices(nights[1..]));
        forall i | 0 < i < |nights| ensures nights[i] == nights[1..][i - 1] {
        }
      }
    }
  }

  /** A quote passes `Validate` exactly when it has as many nights as its stay, all priced in one currency, and for its
      total their sum in int64 arithmetic. */
  lemma ValidatesIff(q: Quote)
    ensures QuoteError(q) == None <==>
            && |q.nights| == Nights(q.stay) && q.total.currency != "" && OneCurrency(q.nights, q.total.currency)
            && q.total.cents == Wrap64(SumPrices(q.nights))
    ensures QuoteError(q) != None ==> QuoteError(q).value in {InvalidQuote, CurrencyMismatch}
  {
    if |q.nights| == Nights(q.stay) {
      var first, rest := q.nights[0], q.nights[1..];
      assert AddUp(q.nights, NOTHING) == if first.price.currency == "" then Err(InvalidQuote) else AddUp(rest, first.price);
      forall i | 0 < i < |q.nights| ensures q.nights[i] == rest[i - 1] {
      }
      if first.price.currency != "" {
        AddUpIff(rest, first.price);
        assert OneCurrency(q.nights, first.price.currency) <==> OneCurrency(rest, first.price.currency);
      }
      assert OneCurrency(q.nights, q.total.currency) ==> first.price.currency == q.total.currency;
    }
  }

  // Only the window from check-in to check-out, both included, matters

  function Within(rates: seq<RateDay>, from: Day, to: Day): seq<RateDay> {
    if rates == [] then [] else
      var rest, last := Within(rates[..|rates| - 1], from, to), rates[|rates| - 1];
      if from <= last.date <= to then rest + [last] else rest
  }

  lemma {:induction false} WithinKeepsWindow(rates: seq<RateDay>, from: Day, to: Day)
    ensures ByDate(Within(rates, from, to)) == map d | d in ByDate(rates) && from <= d <= to :: ByDate(rates)[d]
  {
    if rates == [] {
    } else {
      var init, last := rates[..|rates| - 1], rates[|rates| - 1];
      WithinKeepsWindow(init, from, to);
      if from <= last.date <= to {
        var kept := Within(init, from, to) + [last];
        assert kept[..|kept| - 1] == Within(init, from, to);
      }
    }
  }

  lemma {:induction false} PriceNightsAgree(m: map<Day, RateDay>, n: map<Day, RateDay>, d: Day, checkOut: Day,
                                            total: Money, nights: seq<Night>)
    requires d <= checkOut
    requires forall e | d <= e < checkOut :: (e in m <==> e in n) && (e in m ==> m[e] == n[e])
    ensures PriceNights(m, d, checkOut, total, nights) == PriceNights(n, d, checkOut, total, nights)
    decreases checkOut - d
  {
    if d == checkOut {
    } else if d in m && m[d].price.currency != "" && Add(total, m[d].price).Ok? {
      PriceNightsAgree(m, n, d + 1, checkOut, Add(total, m[d].price).value, nights + [Night(d, m[d].price)]);
    }
  }

  /** Quoting from the window the query returns gives the same answer as quoting from the whole calendar. */
  lemma WindowIsEnough(stay: Stay, rates: seq<RateDay>)
    ensures QuoteFor(stay, Within(rates, stay.checkIn, stay.checkOut)) == QuoteFor(stay, rates)
  {
    WithinKeepsWindow(rates, stay.checkIn, stay.checkOut);
    PriceNightsAgree(ByDate(Within(rates, stay.checkIn, stay.checkOut)), ByDate(rates),
                     stay.checkIn, stay.checkOut, NOTHING, []);
  }
}
