/** A hotel with one room type and two rooms, one of them booked: a state in which the clash can happen. */
module Example {
  import opened Results
  import opened Collections
  import opened Calendar
  import opened Stays
  import opened Moneys
  import opened Pricing
  import opened Bookings
  import opened Tables
  import opened Transactions
  import opened Stock
  import opened Effects
  import opened Consistency
  import opened Interleaving
  import opened Reachable
  import opened Guarantees
  import opened Clashes

  const PROPERTY: Uuid := 1
  const ROOM: Uuid := 2
  const PLAN: Uuid := 3
  const FIRST_ID: Uuid := 11
  const SECOND_ID: Uuid := 21

  const STAY: Stay := Span(1, 2)
  const RATE := RateDay(1, Money(100, "EUR"), 1, false, false)

  const HOTEL := Catalog(map[PROPERTY := "EUR"], [RoomType(ROOM, PROPERTY, 2, "EUR")], [RatePlan(PLAN, PROPERTY, ROOM, 24)])

  function Request(key: string): ReserveInput {
    ReserveInput(key, "hash", PROPERTY, ROOM, PLAN, STAY, 1, "guest@example.com", true)
  }

  function Empty(): Db {
    Db(HOTEL, map[RateKey(PLAN, 1) := RateRow(100, 1, false, false)], map[], map[], map[], map[], map[], map[], map[])
  }

  function Published(): Db {
    Empty().(inventory := map[Slot(ROOM, 1) := InventoryRow(2, 0)])
  }

  const FIRST_DRAWS := Draws(10, FIRST_ID, "ABCDEF", 0, 0)
  const SECOND_ENV := Env(0, 20, SECOND_ID, "ABCDEF", true)

  lemma RatesAre(db: Db)
    requires db.catalog == HOTEL && db.rates == Empty().rates
    ensures ReadRates(db, PLAN, 1, 2) == Ok([RATE])
  {
    var days := RateWindow(db.rates, PLAN, 1, 2);
    assert days == {1} by {
      assert RateKey(PLAN, 1) in db.rates;
    }
    AscendingUnique(Ascending(days), [1]);
    assert NewMoney(100, "EUR") == Ok(Money(100, "EUR"));
    assert [1][1..] == [] && [RATE] + [] == [RATE];
    assert RateDays(db.rates, PLAN, "EUR", []) == Ok([]);
    assert RateDays(db.rates, PLAN, "EUR", [1]) == Ok([RATE]);
    assert FindPlan(HOTEL.plans, PLAN) == Ok(HOTEL.plans[0]);
  }

  lemma QuoteIs()
    ensures QuoteFor(STAY, [RATE]) == Ok(Quote(STAY, [Night(1, Money(100, "EUR"))], Money(100, "EUR")))
  {
    var m: map<Day, RateDay> := map[1 := RATE];
    assert [RATE][..0] == [];
    assert Pricing.ByDate([]) == map[];
    assert Pricing.ByDate([RATE]) == m;
    CalculateSucceedsIff(STAY, [RATE]);
    assert SumCents(m, 2, 2) == 0;
    assert SumCents(m, 1, 2) == 100;
    assert NightsOf(m, 1, 2) == [Night(1, RATE.price)];
    assert PricedIn(m, 1, 2, "EUR");
  }

  function BookingOf(id: Uuid, guest: Uuid): Booking {
    Booking(id, "ABCDEF", PROPERTY, ROOM, PLAN, guest, STAY, 1, Confirmed,
            [Night(1, Money(100, "EUR"))], Money(100, "EUR"), 0, None)
  }

  lemma PlanIs(key: string, d: Draws, guest: Uuid)
    requires d.reference == "ABCDEF" && d.now == 0 && guest != NIL
    ensures Planned(HOTEL, Request(key), Ok([RATE]), guest, d) == Ok(BookingOf(d.id, guest))
  {
    hide QuoteFor, QuoteError;
    QuoteIs();
    QuotesValidate(STAY, [RATE]);
    assert HOTEL.rooms[0].id == ROOM && HOTEL.plans[0].id == PLAN;
  }

  // The first reservation is made

  function Booked(): Db {
    BookedDb(Published(), Request("first"), BookingOf(FIRST_ID, 10), 0)
  }

  lemma PublishedIsConsistent()
    ensures Consistent(Published())
  {
    FreshlyMigrated(HOTEL, Empty().rates);
    var rows := UpsertedRows(map[], ROOM, 1, 2, 2);
    assert rows == map[Slot(ROOM, 1) := InventoryRow(2, 0)];
    assert UpsertError(map[], ROOM, 2, 2, 2) == None;
    assert UpsertError(map[], ROOM, 1, 2, 2) == None;
    UpsertKeepsConsistency(Empty(), ROOM, 1, 2, 2);
    assert map[] + rows == rows;
  }

  lemma FirstCanBook()
    ensures CanBook(Published(), Request("first"), Ok([RATE]), FIRST_DRAWS)
  {
    PlanIs("first", FIRST_DRAWS, 10);
    var b := BookingOf(FIRST_ID, 10);
    assert CanTake(Published().inventory, Slot(ROOM, 1), 1);
  }

  lemma BookedIsConsistent()
    ensures Consistent(Booked())
  {
    hide Consistent, CanBook, Planned, BookedDb;
    PublishedIsConsistent();
    FirstCanBook();
    PlanIs("first", FIRST_DRAWS, 10);
    BookingKeepsConsistency(Published(), Request("first"), Ok([RATE]), FIRST_DRAWS);
  }

  lemma FirstIsRead()
    ensures ByReference(Booked(), "ABCDEF") == Ok(BookingOf(FIRST_ID, 10))
  {
    hide Consistent, CanBook, Planned;
    PublishedIsConsistent();
    FirstCanBook();
    PlanIs("first", FIRST_DRAWS, 10);
    CreateThenRead(Published(), Request("first"), Ok([RATE]), FIRST_DRAWS, Published().rates);
  }

  lemma HotelIsInitial(s: Sys)
    requires s == Sys(Booked(), map[], {FIRST_ID}, 1, map[], map[])
    ensures Initial(s)
  {
    hide Consistent;
    BookedIsConsistent();
  }

  lemma SecondIsBookable()
    ensures Bookable(Booked(), Request("second"), SECOND_ENV, BookingOf(SECOND_ID, 10))
  {
    hide Planned, ReadRates;
    RatesAre(Booked());
    PlanIs("second", DrawsOf(SECOND_ENV), 10);
    assert CanTake(Booked().inventory, Slot(ROOM, 1), 1);
  }

  lemma FirstIsCancellable()
    ensures CancellableNow(Booked(), "ABCDEF", 0, BookingOf(FIRST_ID, 10))
  {
    hide ByReference;
    FirstIsRead();
    assert FindPlan(HOTEL.plans, PLAN) == Ok(HOTEL.plans[0]);
  }

  /** In this hotel a reservation that draws the reference of the first one, and a cancellation of the first one, end up
      waiting for each other. */
  lemma ClashInTheHotel() returns (run: seq<Sys>)
    ensures IsRun(run) && run[0].db == Booked()
    ensures WaitingPair(run[|run| - 1], BookingOf(SECOND_ID, 10), BookingOf(FIRST_ID, 10))
  {
    hide Initial, Bookable, CancellableNow, IsRun, WaitingPair, Booked;
    var s := Sys(Booked(), map[], {FIRST_ID}, 1, map[], map[]);
    HotelIsInitial(s);
    SecondIsBookable();
    FirstIsCancellable();
    run := DeadlockHappens(s, Request("second"), SECOND_ENV, BookingOf(SECOND_ID, 10), 0, BookingOf(FIRST_ID, 10));
  }
}
