/** Inputs at which the code does not do what one might expect of it. */
module Surprises {
  import opened Results
  import opened Words
  import opened Calendar
  import opened Stays
  import opened Moneys
  import opened Pricing
  import opened Bookings
  import opened Tables
  import opened Transactions
  import opened Stock
  import opened Effects
  import opened Availability
  import opened Search
  import opened Rows
  import opened Rates

  lemma {:induction false} SumOfSame(m: map<Day, RateDay>, a: Day, b: Day, cents: int)
    requires a <= b && forall d | a <= d < b :: d in m && m[d].price.cents == cents
    ensures SumCents(m, a, b) == (b - a) * cents
    decreases b - a
  {
    if a == b {
    } else {
      SumOfSame(m, a + 1, b, cents);
      assert (b - a) * cents == (b - (a + 1)) * cents + cents;
    }
  }

  // Dear nights

  const PROPERTY: Uuid := 1
  const ROOM: Uuid := 2
  const PLAN: Uuid := 3
  const OTHER_PROPERTY: Uuid := 4

  /** Four times this is two to the 64. */
  const DEAR: Int64 := 0x4000_0000_0000_0000

  /** One room type, and a rate plan that may belong to this or to another property. */
  function Hotel(planProperty: Uuid): Catalog {
    Catalog(map[PROPERTY := "EUR", OTHER_PROPERTY := "EUR"], [RoomType(ROOM, PROPERTY, 2, "EUR")],
            [RatePlan(PLAN, planProperty, ROOM, 24)])
  }

  /** The first four nights are published at `cents` each, with one room. */
  function Open(planProperty: Uuid, cents: Int64): Db {
    Db(Hotel(planProperty), map k | k in Keys() :: RateRow(cents, 1, false, false),
       map s | s in Slots() :: InventoryRow(1, 0), map[], map[], map[], map[], map[], map[])
  }

  function Keys(): set<RateKey> {
    {RateKey(PLAN, 1), RateKey(PLAN, 2), RateKey(PLAN, 3), RateKey(PLAN, 4)}
  }

  function Slots(): set<Slot> {
    {Slot(ROOM, 1), Slot(ROOM, 2), Slot(ROOM, 3), Slot(ROOM, 4)}
  }

  function StayOf(nights: int): Stay
    requires 1 <= nights <= 4
  {
    Span(1, 1 + nights)
  }

  lemma HotelIsSound(planProperty: Uuid, cents: Int64)
    requires 0 <= cents
    ensures CatalogSound(Hotel(planProperty))
    ensures RatesAccepted(Open(planProperty, cents).rates) && RowsInBounds(Open(planProperty, cents).inventory)
    ensures ValidCurrency("EUR")
  {
  }

  lemma RatesAreRead(planProperty: Uuid, cents: Int64, nights: int)
    requires (planProperty == PROPERTY || planProperty == OTHER_PROPERTY) && 0 <= cents && 1 <= nights <= 4
    ensures var r := ReadRates(Open(planProperty, cents), PLAN, 1, 1 + nights);
            && r.Ok?
            && var m := Pricing.ByDate(r.value);
            && (forall d | 1 <= d < 1 + nights :: d in m && m[d].price == Money(cents, "EUR"))
            && (forall d :: d in m ==> m[d].minStay == 1 && !m[d].closedToArrival && !m[d].closedToDeparture)
  {
    hide ReadRates, CatalogSound, ValidCurrency, PlanIs;
    var db := Open(planProperty, cents);
    HotelIsSound(planProperty, cents);
    var rp := RatePlan(PLAN, planProperty, ROOM, 24);
    PlanIsFound(db.catalog, rp);
    PlanFound(db.catalog, PLAN);
    RatesReadAre(db, PLAN, 1, 1 + nights, rp);
    CalendarRead(db, PLAN, 1, 1 + nights, rp);
    forall d | 1 <= d < 1 + nights ensures RateKey(PLAN, d) in db.rates {
      IsPublished(planProperty, cents, nights, d);
    }
  }

  lemma IsPublished(planProperty: Uuid, cents: Int64, nights: int, d: Day)
    requires 1 <= d < 1 + nights <= 5
    ensures RateKey(PLAN, d) in Open(planProperty, cents).rates
  {
    assert RateKey(PLAN, d) in Keys();
  }

  lemma QuoteIs(planProperty: Uuid, cents: Int64, nights: int, rates: Result<seq<RateDay>>)
    requires (planProperty == PROPERTY || planProperty == OTHER_PROPERTY) && 0 <= cents && 1 <= nights <= 4
    requires rates == ReadRates(Open(planProperty, cents), PLAN, 1, 1 + nights)
    ensures rates.Ok? && QuoteFor(StayOf(nights), rates.value).Ok?
    ensures QuoteFor(StayOf(nights), rates.value).value.total.cents == Wrap64(nights * cents)
  {
    hide ReadRates, QuoteFor;
    RatesAreRead(planProperty, cents, nights);
    var m := Pricing.ByDate(rates.value);
    CalculateSucceedsIff(StayOf(nights), rates.value);
    SumOfSame(m, 1, 1 + nights, cents);
  }

  lemma RoomIsLeft(planProperty: Uuid, cents: Int64, nights: int)
    requires 1 <= nights <= 4
    ensures CanMove(Open(planProperty, cents).inventory, ROOM, StayOf(nights), 1)
  {
    forall d | 1 <= d < 1 + nights ensures CanTake(Open(planProperty, cents).inventory, Slot(ROOM, d), 1) {
      assert Slot(ROOM, d) in Slots();
    }
  }

  /** A stay of dear nights is offered at the wrapped total. */
  lemma DearNightsOffered(nights: int) returns (o: Offer)
    requires 1 <= nights <= 4
    ensures var r := Offers(Open(PROPERTY, DEAR), PROPERTY, StayOf(nights), 1); r.Ok? && o in r.value
    ensures o.room.id == ROOM && o.plan.id == PLAN && o.quote.total.cents == Wrap64(nights * DEAR)
  {
    hide ReadRates, QuoteFor, Offers, UnitsLeft, CatalogSound, RowsInBounds, CanMove, RatesAccepted, ValidCurrency;
    var db, stay := Open(PROPERTY, DEAR), StayOf(nights);
    HotelIsSound(PROPERTY, DEAR);
    var rates := ReadRates(db, PLAN, 1, 1 + nights);
    QuoteIs(PROPERTY, DEAR, nights, rates);
    RoomIsLeft(PROPERTY, DEAR, nights);
    UnitsLeftIff(db, ROOM, stay, 1);
    var room, plan := RoomType(ROOM, PROPERTY, 2, "EUR"), RatePlan(PLAN, PROPERTY, ROOM, 24);
    SearchSucceeds(db, PROPERTY, stay, 1, room);
    var quote := QuoteFor(stay, rates.value).value;
    o := Offer(room, plan, quote, UnitsLeft(db, ROOM, stay));
    OfferedIff(db, PROPERTY, stay, 1, o);
  }

  function Request(stay: Stay): ReserveInput {
    ReserveInput("key", "hash", PROPERTY, ROOM, PLAN, stay, 1, "guest@example.com", true)
  }

  const DRAWS := Draws(10, 11, "ABCDEF", 0, 0)

  /** Two nights at 4611686018427387904 cents are offered at a negative total, and booking them is refused. */
  lemma NegativeOffer() returns (o: Offer)
    ensures var r := Offers(Open(PROPERTY, DEAR), PROPERTY, StayOf(2), 1); r.Ok? && o in r.value
    ensures o.quote.total.cents == -TWO_63
    ensures ReserveTx(Open(PROPERTY, DEAR), Request(StayOf(2)), ReadRates(Open(PROPERTY, DEAR), PLAN, 1, 3), DRAWS).result.Err?
  {
    hide ReadRates, Offers, ReserveTx, CatalogSound, RowsInBounds;
    o := DearNightsOffered(2);
    assert Wrap64(2 * DEAR) == -TWO_63;
    HotelIsSound(PROPERTY, DEAR);
    OfferCanBeBooked(Open(PROPERTY, DEAR), PROPERTY, StayOf(2), 1, o, Request(StayOf(2)), DRAWS);
  }

  /** Four such nights are offered, and can be booked, for nothing. */
  lemma FreeOffer() returns (o: Offer)
    ensures var r := Offers(Open(PROPERTY, DEAR), PROPERTY, StayOf(4), 1); r.Ok? && o in r.value
    ensures var r := ReserveTx(Open(PROPERTY, DEAR), Request(StayOf(4)), ReadRates(Open(PROPERTY, DEAR), PLAN, 1, 5), DRAWS)
                     .result;
            r.Ok? && r.value.booking.total.cents == 0
  {
    hide ReadRates, Offers, ReserveTx, CatalogSound, RowsInBounds;
    o := DearNightsOffered(4);
    assert Wrap64(4 * DEAR) == 0;
    HotelIsSound(PROPERTY, DEAR);
    OfferCanBeBooked(Open(PROPERTY, DEAR), PROPERTY, StayOf(4), 1, o, Request(StayOf(4)), DRAWS);
  }

  /** A night of this property is booked on the rate plan of another one, under which no search offers it. */
  lemma ForeignPlanBooked()
    ensures var db := Open(OTHER_PROPERTY, 100);
            var r := ReserveTx(db, Request(StayOf(1)), ReadRates(db, PLAN, 1, 2), DRAWS).result;
            && r.Ok?
            && !OnOffer(db, Request(StayOf(1)), r.value.booking)
            && Offers(db, PROPERTY, StayOf(1), 1).Ok?
  {
    hide ReadRates, Offers, ReserveTx, CatalogSound, RowsInBounds, RatesAccepted, OnOffer, CanBook, BookedDb, ValidCurrency;
    var db := Open(OTHER_PROPERTY, 100);
    HotelIsSound(OTHER_PROPERTY, 100);
    ForeignPlanCanBook();
    ReserveEffect(db, Request(StayOf(1)), ReadRates(db, PLAN, 1, 2), DRAWS);
    BookedIsOfferedIff(db, Request(StayOf(1)), DRAWS);
    PlanIsFound(db.catalog, RatePlan(PLAN, OTHER_PROPERTY, ROOM, 24));
    SearchSucceeds(db, PROPERTY, StayOf(1), 1, RoomType(ROOM, PROPERTY, 2, "EUR"));
  }

  lemma ForeignPlanCanBook()
    ensures var db := Open(OTHER_PROPERTY, 100);
            CanBook(db, Request(StayOf(1)), ReadRates(db, PLAN, 1, 2), DRAWS)
  {
    hide ReadRates, QuoteFor, CatalogSound, RowsInBounds, NightsAccepted, CanMove, RowAccepted;
    var db, input := Open(OTHER_PROPERTY, 100), Request(StayOf(1));
    HotelIsSound(OTHER_PROPERTY, 100);
    var rates := ReadRates(db, PLAN, 1, 2);
    QuoteIs(OTHER_PROPERTY, 100, 1, rates);
    RoomIsLeft(OTHER_PROPERTY, 100, 1);
    ForeignPlanIsPlanned();
    PlannedFacts(db.catalog, input, rates, 10, DRAWS);
    PlanIsAcceptable(db, input, DRAWS, 10);
  }

  lemma ForeignPlanIsPlanned()
    ensures Planned(Hotel(OTHER_PROPERTY), Request(StayOf(1)), ReadRates(Open(OTHER_PROPERTY, 100), PLAN, 1, 2), 10, DRAWS).Ok?
  {
    hide ReadRates, QuoteFor, QuoteError;
    var rates := ReadRates(Open(OTHER_PROPERTY, 100), PLAN, 1, 2);
    QuoteIs(OTHER_PROPERTY, 100, 1, rates);
    QuotesValidate(StayOf(1), rates.value);
    assert Hotel(OTHER_PROPERTY).rooms[0].id == ROOM && Hotel(OTHER_PROPERTY).plans[0].id == PLAN;
  }
}
