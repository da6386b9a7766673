/** The rate calendar, row by row: which rows are read, which stays they quote and at what price, and what publishing
    leaves stored. */
module Rates {
  import opened Results
  import opened Words
  import opened Collections
  import opened Calendar
  import opened Stays
  import opened Moneys
  import opened Pricing
  import opened Bookings
  import opened Tables
  import opened Transactions
  import opened Effects
  import opened Rows

  // What is read

  /** A stored row as it is read. */
  function StoredRate(rates: map<RateKey, RateRow>, plan: Uuid, currency: string, d: Day): RateDay
    requires RateKey(plan, d) in rates
  {
    var row := rates[RateKey(plan, d)];
    RateDay(d, Money(row.cents, currency), row.minStay, row.closedToArrival, row.closedToDeparture)
  }

  lemma {:induction false} RateDaysAreStored(rates: map<RateKey, RateRow>, plan: Uuid, currency: string, days: seq<Day>)
    requires forall d :: d in days ==> RateKey(plan, d) in rates
    ensures var r := RateDays(rates, plan, currency, days);
            && (r.Ok? <==>
                  || days == []
                  || (ValidCurrency(currency) && forall d :: d in days ==> 0 <= rates[RateKey(plan, d)].cents))
            && (r.Err? ==> r.error == CorruptRate)
            && (r.Ok? ==> |r.value| == |days|
                          && forall i :: 0 <= i < |days| ==> r.value[i] == StoredRate(rates, plan, currency, days[i]))
  {
    hide ValidCurrency;
    if days == [] {
    } else {
      RateDaysAreStored(rates, plan, currency, days[1..]);
      assert forall d :: d in days <==> d == days[0] || d in days[1..];
    }
  }

  /** The dates of the window. */
  lemma WindowIs(rates: map<RateKey, RateRow>, plan: Uuid, from: Day, to: Day, d: Day)
    ensures d in Ascending(RateWindow(rates, plan, from, to)) <==> RateKey(plan, d) in rates && from <= d <= to
  {
    if RateKey(plan, d) in rates && from <= d <= to {
      assert RateKey(plan, d).day == d;
    }
  }

  /** An entry has this date. */
  predicate Dated(days: seq<RateDay>, d: Day) {
    exists i :: 0 <= i < |days| && days[i].date == d
  }

  /** The reading fails exactly when a row of the window is no money. Otherwise it gives precisely the stored rows of
      the plan with a date from `from` to `to`, both included, in order of date, each as it is stored. */
  lemma RatesReadAre(db: Db, plan: Uuid, from: Day, to: Day, rp: RatePlan)
    requires PlanIs(db.catalog, plan, rp) && rp.property in db.catalog.currencies
    ensures var r, currency := ReadRates(db, plan, from, to), db.catalog.currencies[rp.property];
            && (r.Ok? <==> forall d | from <= d <= to && RateKey(plan, d) in db.rates ::
                             ValidCurrency(currency) && 0 <= db.rates[RateKey(plan, d)].cents)
            && (r.Err? ==> r.error == CorruptRate)
            && (r.Ok? ==>
                  && (forall i, j :: 0 <= i < j < |r.value| ==> r.value[i].date < r.value[j].date)
                  && (forall d :: Dated(r.value, d) <==> RateKey(plan, d) in db.rates && from <= d <= to)
                  && (forall i :: 0 <= i < |r.value| ==>
                        && RateKey(plan, r.value[i].date) in db.rates
                        && var row := db.rates[RateKey(plan, r.value[i].date)];
                        r.value[i] == RateDay(r.value[i].date, Money(row.cents, currency), row.minStay,
                                              row.closedToArrival, row.closedToDeparture)))
  {
    hide RateWindow, RateDays, ValidCurrency, FindPlan, PlanIs;
    var days, currency := Ascending(RateWindow(db.rates, plan, from, to)), db.catalog.currencies[rp.property];
    PlanFound(db.catalog, plan);
    forall d ensures d in days <==> RateKey(plan, d) in db.rates && from <= d <= to {
      WindowIs(db.rates, plan, from, to, d);
    }
    RateDaysAreStored(db.rates, plan, currency, days);
    var r := ReadRates(db, plan, from, to);
    assert r == RateDays(db.rates, plan, currency, days);
    if r.Ok? {
      forall d ensures Dated(r.value, d) <==> RateKey(plan, d) in db.rates && from <= d <= to {
        if i :| 0 <= i < |r.value| && r.value[i].date == d {
          assert days[i] == d;
        }
        if RateKey(plan, d) in db.rates && from <= d <= to {
          var i :| 0 <= i < |days| && days[i] == d;
          assert r.value[i].date == d;
        }
      }
    }
  }

  /** Without the plan, or its property, nothing is read. */
  lemma NothingRead(db: Db, plan: Uuid, from: Day, to: Day)
    requires forall rp :: PlanIs(db.catalog, plan, rp) ==> rp.property !in db.catalog.currencies
    ensures ReadRates(db, plan, from, to) == Ok([])
  {
    hide PlanIs;
    PlanFound(db.catalog, plan);
  }

  // What is quoted

  lemma {:induction false} ByDateOf(days: seq<RateDay>)
    requires forall i, j :: 0 <= i < j < |days| ==> days[i].date < days[j].date
    ensures var m := ByDate(days);
            && (forall d :: d in m <==> Dated(days, d))
            && (forall i :: 0 <= i < |days| ==> days[i].date in m && m[days[i].date] == days[i])
  {
    if days == [] {
    } else {
      var n := |days| - 1;
      ByDateOf(days[..n]);
      forall d ensures d in ByDate(days) <==> Dated(days, d) {
        if i :| 0 <= i < |days| && days[i].date == d {
          assert i < n ==> days[..n][i].date == d;
        }
        if d in ByDate(days[..n]) {
          var i :| 0 <= i < n && days[..n][i].date == d;
          assert days[i].date == d;
        }
      }
      forall i | 0 <= i < |days| ensures days[i].date in ByDate(days) && ByDate(days)[days[i].date] == days[i] {
        assert i < n ==> days[..n][i] == days[i];
      }
    }
  }

  /** The rates read, indexed by date: the stored rows of the window. */
  lemma CalendarRead(db: Db, plan: Uuid, from: Day, to: Day, rp: RatePlan)
    requires PlanIs(db.catalog, plan, rp) && rp.property in db.catalog.currencies && ReadRates(db, plan, from, to).Ok?
    ensures var m := ByDate(ReadRates(db, plan, from, to).value);
            && (forall d :: d in m <==> RateKey(plan, d) in db.rates && from <= d <= to)
            && (forall d :: d in m ==> m[d] == StoredRate(db.rates, plan, db.catalog.currencies[rp.property], d))
  {
    hide PlanIs, ReadRates, ByDate, Dated;
    var days := ReadRates(db, plan, from, to).value;
    RatesReadAre(db, plan, from, to, rp);
    ByDateOf(days);
    forall d | d in ByDate(days)
      ensures RateKey(plan, d) in db.rates
      ensures ByDate(days)[d] == StoredRate(db.rates, plan, db.catalog.currencies[rp.property], d)
    {
      var i := EntryOf(days, d);
    }
  }

  lemma EntryOf(days: seq<RateDay>, d: Day) returns (i: nat)
    requires Dated(days, d)
    ensures i < |days| && days[i].date == d
  {
    i :| 0 <= i < |days| && days[i].date == d;
  }

  /** Every night of the stay has a stored rate. */
  predicate NightsPriced(rates: map<RateKey, RateRow>, plan: Uuid, stay: Stay) {
    forall d | stay.checkIn <= d < stay.checkOut :: RateKey(plan, d) in rates
  }

  predicate NoArrival(rates: map<RateKey, RateRow>, plan: Uuid, d: Day) {
    RateKey(plan, d) in rates && rates[RateKey(plan, d)].closedToArrival
  }

  predicate NoDeparture(rates: map<RateKey, RateRow>, plan: Uuid, d: Day) {
    RateKey(plan, d) in rates && rates[RateKey(plan, d)].closedToDeparture
  }

  /** The stored rates are open for the stay: every night has one, the first can be arrived on and asks for no more
      nights, and the day of departure, where it has one, can be left on. */
  predicate OpenFor(rates: map<RateKey, RateRow>, plan: Uuid, stay: Stay) {
    && NightsPriced(rates, plan, stay)
    && !NoArrival(rates, plan, stay.checkIn) && !NoDeparture(rates, plan, stay.checkOut)
    && rates[RateKey(plan, stay.checkIn)].minStay <= stay.checkOut - stay.checkIn
  }

  /** The property's rates can be read as money, and those of the plan are open for the stay. */
  predicate PlanOpen(db: Db, property: Uuid, plan: Uuid, stay: Stay) {
    && property in db.catalog.currencies && ValidCurrency(db.catalog.currencies[property])
    && (forall x | stay.checkIn <= x <= stay.checkOut && RateKey(plan, x) in db.rates ::
          0 <= db.rates[RateKey(plan, x)].cents)
    && OpenFor(db.rates, plan, stay)
  }

  /** A rate of the stay is no money. */
  ghost predicate PlanCorrupt(db: Db, property: Uuid, plan: Uuid, stay: Stay) {
    && property in db.catalog.currencies
    && exists x :: stay.checkIn <= x <= stay.checkOut && RateKey(plan, x) in db.rates
                   && !(ValidCurrency(db.catalog.currencies[property]) && 0 <= db.rates[RateKey(plan, x)].cents)
  }

  function SumStored(rates: map<RateKey, RateRow>, plan: Uuid, a: Day, b: Day): int
    requires a <= b && forall d | a <= d < b :: RateKey(plan, d) in rates
    decreases b - a
  {
    if a == b then 0 else rates[RateKey(plan, a)].cents + SumStored(rates, plan, a + 1, b)
  }

  lemma {:induction false} SumsAgree(rates: map<RateKey, RateRow>, plan: Uuid, m: map<Day, RateDay>, a: Day, b: Day)
    requires a <= b
    requires forall d | a <= d < b ::
               RateKey(plan, d) in rates && d in m && m[d].price.cents == rates[RateKey(plan, d)].cents
    ensures SumCents(m, a, b) == SumStored(rates, plan, a, b)
    decreases b - a
  {
    if a == b {
    } else {
      SumsAgree(rates, plan, m, a + 1, b);
    }
  }

  /** From the rates read for it a stay is quoted exactly when the stored ones are open for it, each night at its stored
      price, and for their sum modulo two to the 64. */
  lemma QuotedIff(db: Db, plan: Uuid, stay: Stay, rp: RatePlan)
    requires PlanIs(db.catalog, plan, rp) && rp.property in db.catalog.currencies
    requires ReadRates(db, plan, stay.checkIn, stay.checkOut).Ok?
    ensures var q, currency := QuoteFor(stay, ReadRates(db, plan, stay.checkIn, stay.checkOut).value),
                               db.catalog.currencies[rp.property];
            && (q.Ok? <==> OpenFor(db.rates, plan, stay))
            && (q.Ok? ==>
                  && q.value.stay == stay && |q.value.nights| == stay.checkOut - stay.checkIn
                  && (forall i :: 0 <= i < |q.value.nights| ==>
                        q.value.nights[i] ==
                        Night(stay.checkIn + i, Money(db.rates[RateKey(plan, stay.checkIn + i)].cents, currency)))
                  && q.value.total == Money(Wrap64(SumStored(db.rates, plan, stay.checkIn, stay.checkOut)), currency))
  {
    hide PlanIs, ReadRates, ByDate, QuoteFor, ValidCurrency, Dated;
    var days, currency := ReadRates(db, plan, stay.checkIn, stay.checkOut).value, db.catalog.currencies[rp.property];
    var m := ByDate(days);
    RatesReadAre(db, plan, stay.checkIn, stay.checkOut, rp);
    CalendarRead(db, plan, stay.checkIn, stay.checkOut, rp);
    CalculateSucceedsIff(stay, days);
    if OpenFor(db.rates, plan, stay) {
      ProperCurrency(db.rates, plan, stay, currency);
    }
    if Sellable(stay, m) {
      SumsAgree(db.rates, plan, m, stay.checkIn, stay.checkOut);
    }
  }

  lemma ProperCurrency(rates: map<RateKey, RateRow>, plan: Uuid, stay: Stay, currency: string)
    requires NightsPriced(rates, plan, stay)
    requires forall d | stay.checkIn <= d <= stay.checkOut && RateKey(plan, d) in rates :: ValidCurrency(currency)
    ensures currency != ""
  {
    assert RateKey(plan, stay.checkIn) in rates;
  }

  lemma FirstNightStored(rates: map<RateKey, RateRow>, plan: Uuid, stay: Stay)
    requires OpenFor(rates, plan, stay)
    ensures RateKey(plan, stay.checkIn) in rates
  {
  }

  lemma NoRatesNoQuote(stay: Stay)
    ensures QuoteFor(stay, []) == Err(RateUnavailable)
  {
  }

  lemma OnlyPlan(catalog: Catalog, id: Uuid, rp: RatePlan)
    requires PlanIs(catalog, id, rp)
    ensures forall other :: PlanIs(catalog, id, other) ==> other == rp
  {
    hide PlanIs;
    PlanFound(catalog, id);
  }

  /** The rates read quote the stay exactly when the plan is open for it. */
  lemma PlanQuoted(db: Db, plan: Uuid, stay: Stay, rp: RatePlan)
    requires PlanIs(db.catalog, plan, rp)
    ensures var r := ReadRates(db, plan, stay.checkIn, stay.checkOut);
            r.Ok? && QuoteFor(stay, r.value).Ok? <==> PlanOpen(db, rp.property, plan, stay)
  {
    hide PlanIs, ReadRates, QuoteFor, ValidCurrency, OpenFor, Dated;
    if rp.property in db.catalog.currencies {
      RatesReadAre(db, plan, stay.checkIn, stay.checkOut, rp);
      if ReadRates(db, plan, stay.checkIn, stay.checkOut).Ok? {
        QuotedIff(db, plan, stay, rp);
        if OpenFor(db.rates, plan, stay) {
          FirstNightStored(db.rates, plan, stay);
        }
      }
    } else {
      OnlyPlan(db.catalog, plan, rp);
      NothingRead(db, plan, stay.checkIn, stay.checkOut);
      NoRatesNoQuote(stay);
    }
  }

  /** Otherwise the first of these that applies is the answer: no arrival, no departure, a night without a rate, too few
      nights. */
  lemma RefusedQuote(db: Db, plan: Uuid, stay: Stay, rp: RatePlan)
    requires PlanIs(db.catalog, plan, rp) && rp.property in db.catalog.currencies
    requires ReadRates(db, plan, stay.checkIn, stay.checkOut).Ok? && !OpenFor(db.rates, plan, stay)
    ensures QuoteFor(stay, ReadRates(db, plan, stay.checkIn, stay.checkOut).value) ==
            Err(if NoArrival(db.rates, plan, stay.checkIn) then ClosedToArrival
                else if NoDeparture(db.rates, plan, stay.checkOut) then ClosedToDeparture
                else if !NightsPriced(db.rates, plan, stay) then RateUnavailable
                else MinStayNotMet)
  {
    hide PlanIs, ReadRates, ByDate, QuoteFor, Dated;
    var days, currency := ReadRates(db, plan, stay.checkIn, stay.checkOut).value, db.catalog.currencies[rp.property];
    RatesReadAre(db, plan, stay.checkIn, stay.checkOut, rp);
    CalendarRead(db, plan, stay.checkIn, stay.checkOut, rp);
    RefusalsAre(stay, days);
    var m := ByDate(days);
    if !ArrivalClosed(stay, m) && !DepartureClosed(stay, m) {
      if d :| FirstUnpriced(stay, m, d) {
        MissingRate(db.rates, plan, stay, m, currency, d);
      } else {
        AllPriced(stay, m);
      }
    }
  }

  /** Rates read from one calendar are all in one currency, so an unpriced night is one without a row. */
  lemma MissingRate(rates: map<RateKey, RateRow>, plan: Uuid, stay: Stay, m: map<Day, RateDay>, currency: string, d: Day)
    requires forall e :: e in m <==> RateKey(plan, e) in rates && stay.checkIn <= e <= stay.checkOut
    requires forall e :: e in m ==> m[e] == StoredRate(rates, plan, currency, e)
    requires FirstUnpriced(stay, m, d) && (currency == "" ==> forall e :: e !in m)
    ensures d !in m && RateKey(plan, d) !in rates
  {
  }

  /** A wider window quotes the same. */
  lemma WiderWindowQuotesTheSame(db: Db, plan: Uuid, stay: Stay, from: Day, to: Day)
    requires from <= stay.checkIn && stay.checkOut <= to && ReadRates(db, plan, from, to).Ok?
    ensures ReadRates(db, plan, stay.checkIn, stay.checkOut).Ok?
    ensures QuoteFor(stay, ReadRates(db, plan, stay.checkIn, stay.checkOut).value) ==
            QuoteFor(stay, ReadRates(db, plan, from, to).value)
  {
    hide PlanIs, ReadRates, ByDate, ValidCurrency, Dated;
    if rp :| PlanIs(db.catalog, plan, rp) && rp.property in db.catalog.currencies {
      RatesReadAre(db, plan, from, to, rp);
      RatesReadAre(db, plan, stay.checkIn, stay.checkOut, rp);
      CalendarRead(db, plan, from, to, rp);
      CalendarRead(db, plan, stay.checkIn, stay.checkOut, rp);
      PriceNightsAgree(ByDate(ReadRates(db, plan, stay.checkIn, stay.checkOut).value),
                       ByDate(ReadRates(db, plan, from, to).value), stay.checkIn, stay.checkOut, NOTHING, []);
    } else {
      NothingRead(db, plan, from, to);
      NothingRead(db, plan, stay.checkIn, stay.checkOut);
    }
  }

  // What publishing leaves stored

  lemma {:induction false} RowsOfPlan(plan: Uuid, days: seq<RateDay>, k: RateKey)
    ensures k in RateRows(plan, days) <==> k.plan == plan && exists i :: 0 <= i < |days| && days[i].date == k.day
  {
    if days == [] {
    } else {
      var n := |days| - 1;
      RowsOfPlan(plan, days[..n], k);
      if i :| 0 <= i < |days| && days[i].date == k.day {
        assert i < n ==> days[..n][i].date == k.day;
      }
    }
  }

  /** The entries of a request, each with a date and a minimum stay, at a price that is money. */
  predicate EntriesAccepted(inputs: seq<RateInput>, currency: string) {
    forall i :: 0 <= i < |inputs| ==>
      inputs[i].date.Some? && 1 <= inputs[i].minStay && ValidCurrency(currency) && 0 <= inputs[i].cents
  }

  lemma {:induction false} EntriesChecked(inputs: seq<RateInput>, currency: string)
    ensures RateDaysOf(inputs, currency).Ok? <==> EntriesAccepted(inputs, currency)
  {
    hide ValidCurrency;
    if inputs == [] {
    } else {
      EntriesChecked(inputs[1..], currency);
      assert forall i :: 0 < i < |inputs| ==> inputs[i] == inputs[1..][i - 1];
      assert EntriesAccepted(inputs, currency) ==> EntriesAccepted(inputs[1..], currency);
    }
  }

  /** What the upsert asks: no date twice, and a minimum stay that is one or more in sixteen bits. */
  predicate EntriesStorable(inputs: seq<RateInput>) {
    && (forall i, j :: 0 <= i < j < |inputs| ==> inputs[i].date != inputs[j].date)
    && (forall i :: 0 <= i < |inputs| ==> 1 <= Int16(inputs[i].minStay))
  }

  /** Publishing succeeds exactly for a request with entries, of a known plan of a known room type, that the checks and
      the upsert accept. */
  lemma SetRatesIff(db: Db, plan: Uuid, inputs: seq<RateInput>)
    ensures SetRatesTx(db, plan, inputs).result.Ok? <==>
            && inputs != []
            && exists rp, room :: PlanIs(db.catalog, plan, rp) && RoomIs(db.catalog, rp.room, room)
                                  && EntriesAccepted(inputs, room.currency) && EntriesStorable(inputs)
  {
    hide PlanIs, RoomIs, FindPlan, FindRoom, RateDaysOf, RateRows, EntriesAccepted;
    PlanFound(db.catalog, plan);
    if FindPlan(db.catalog.plans, plan).Ok? {
      var rp := FindPlan(db.catalog.plans, plan).value;
      RoomFound(db.catalog, rp.room);
      if FindRoom(db.catalog.rooms, rp.room).Ok? {
        var room := FindRoom(db.catalog.rooms, rp.room).value;
        EntriesChecked(inputs, room.currency);
        if RateDaysOf(inputs, room.currency).Ok? {
          StorableIff(inputs, room.currency);
        }
      }
    }
  }

  /** The complaint about an entry that is not accepted. */
  function Complaint(input: RateInput, currency: string): Error {
    if input.date == None || input.minStay < 1 then InvalidRateInput
    else if !ValidCurrency(currency) then InvalidCurrency
    else NegativeAmount
  }

  lemma {:induction false} FirstComplaint(inputs: seq<RateInput>, currency: string, n: nat)
    requires n < |inputs| && EntriesAccepted(inputs[..n], currency) && !EntriesAccepted([inputs[n]], currency)
    ensures RateDaysOf(inputs, currency) == Err(Complaint(inputs[n], currency))
    decreases n
  {
    hide ValidCurrency;
    assert [inputs[n]][0] == inputs[n];
    if n == 0 {
    } else {
      assert inputs[..n][0] == inputs[0] && inputs[1..][..n - 1] == inputs[..n][1..] && inputs[1..][n - 1] == inputs[n];
      forall i | 0 <= i < n - 1 ensures inputs[..n][1..][i] == inputs[..n][i + 1] {
      }
      FirstComplaint(inputs[1..], currency, n - 1);
    }
  }

  /** Which refusal answers which request: one without entries; a plan or room type that is not known; the first entry
      that is not accepted; entries the upsert does not take. */
  lemma RefusedRates(db: Db, plan: Uuid, inputs: seq<RateInput>)
    ensures var r := SetRatesTx(db, plan, inputs).result;
            && (inputs == [] ==> r == Err(NoRates))
            && (inputs != [] && (forall rp, room :: !(PlanIs(db.catalog, plan, rp) && RoomIs(db.catalog, rp.room, room))) ==>
                  r == Err(RecordNotFound))
            && (inputs != [] ==> forall rp, room :: PlanIs(db.catalog, plan, rp) && RoomIs(db.catalog, rp.room, room) ==>
                  && (forall n :: 0 <= n < |inputs| && EntriesAccepted(inputs[..n], room.currency)
                                  && !EntriesAccepted([inputs[n]], room.currency) ==>
                            r == Err(Complaint(inputs[n], room.currency)))
                  && (EntriesAccepted(inputs, room.currency) && !EntriesStorable(inputs) ==> r == Err(DatabaseError)))
  {
    hide PlanIs, RoomIs, FindPlan, FindRoom, RateDaysOf, RateRows, EntriesAccepted, Complaint;
    PlanFound(db.catalog, plan);
    if FindPlan(db.catalog.plans, plan).Ok? {
      var rp := FindPlan(db.catalog.plans, plan).value;
      RoomFound(db.catalog, rp.room);
      if FindRoom(db.catalog.rooms, rp.room).Ok? {
        var room := FindRoom(db.catalog.rooms, rp.room).value;
        assert PlanIs(db.catalog, plan, rp) && RoomIs(db.catalog, rp.room, room);
        EntriesChecked(inputs, room.currency);
        if RateDaysOf(inputs, room.currency).Ok? {
          StorableIff(inputs, room.currency);
        }
        forall n | 0 <= n < |inputs| && EntriesAccepted(inputs[..n], room.currency)
                   && !EntriesAccepted([inputs[n]], room.currency)
          ensures RateDaysOf(inputs, room.currency) == Err(Complaint(inputs[n], room.currency))
        {
          FirstComplaint(inputs, room.currency, n);
        }
      }
    }
  }

  lemma StorableIff(inputs: seq<RateInput>, currency: string)
    requires RateDaysOf(inputs, currency).Ok?
    ensures var days := RateDaysOf(inputs, currency).value;
            EntriesStorable(inputs) <==>
            && (forall i, j :: 0 <= i < j < |days| ==> days[i].date != days[j].date)
            && (forall i :: 0 <= i < |days| ==> 0 <= days[i].price.cents && 1 <= Int16(days[i].minStay))
  {
    hide RateDaysOf, EntriesAccepted;
    var days := RateDaysOf(inputs, currency).value;
    RateDaysAre(inputs, currency);
    EntriesChecked(inputs, currency);
    PricesChecked(inputs, currency);
    forall i | 0 <= i < |inputs| ensures IsEntry(days[i], inputs[i], currency) {
    }
  }

  lemma PricesChecked(inputs: seq<RateInput>, currency: string)
    requires EntriesAccepted(inputs, currency)
    ensures forall i :: 0 <= i < |inputs| ==> inputs[i].date.Some? && 0 <= inputs[i].cents
  {
  }

  /** A publishing that succeeds stores, on each date asked for, what was asked for (the minimum stay in sixteen bits);
      every other rate, of this plan or another, stays as it is, and so does everything that is no rate. One that fails
      changes nothing. */
  lemma PublishedRates(db: Db, plan: Uuid, inputs: seq<RateInput>, k: RateKey)
    ensures var o := SetRatesTx(db, plan, inputs);
            && (o.result.Err? ==> o.db == db)
            && o.db == db.(rates := o.db.rates)
            && (o.result.Ok? ==>
                  && (k.plan != plan || (forall i :: 0 <= i < |inputs| ==> inputs[i].date != Some(k.day)) ==>
                        && (k in o.db.rates <==> k in db.rates)
                        && (k in db.rates ==> o.db.rates[k] == db.rates[k]))
                  && (forall i :: 0 <= i < |inputs| && k.plan == plan && inputs[i].date == Some(k.day) ==>
                        && k in o.db.rates
                        && o.db.rates[k] == RateRow(inputs[i].cents, Int16(inputs[i].minStay), inputs[i].closedToArrival,
                                                    inputs[i].closedToDeparture)))
  {
    hide FindPlan, FindRoom, RateDaysOf, RateRows;
    var o := SetRatesTx(db, plan, inputs);
    if o.result.Ok? {
      var currency := FindRoom(db.catalog.rooms, FindPlan(db.catalog.plans, plan).value.room).value.currency;
      var days := RateDaysOf(inputs, currency).value;
      RateDaysAre(inputs, currency);
      RowsOfPlan(plan, days, k);
      forall i | 0 <= i < |inputs| ensures IsEntry(days[i], inputs[i], currency) && inputs[i].date == Some(days[i].date) {
      }
      forall i | 0 <= i < |inputs| && k.plan == plan && inputs[i].date == Some(k.day)
        ensures k in o.db.rates
        ensures o.db.rates[k] == RateRow(inputs[i].cents, Int16(inputs[i].minStay), inputs[i].closedToArrival,
                                         inputs[i].closedToDeparture)
      {
        PublishedRateIff(db, plan, inputs, i);
      }
    }
  }
}
