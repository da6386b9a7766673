/** What reserving comes to, in terms of the stored rows alone: when a request under an unused key succeeds and what it
    then writes. */
module ReserveOutcome {
  import opened Results
  import opened Words
  import opened Collections
  import opened Calendar
  import opened Stays
  import opened Moneys
  import opened Pricing
  import opened Bookings
  import opened Tables
  import opened Transactions
  import opened Stock
  import opened Effects
  import opened Consistency
  import opened Rows
  import opened Rates

  /** The rates seen are money, and open for the stay. */
  predicate PricedAt(seen: Db, input: ReserveInput, rp: RatePlan) {
    PlanOpen(seen, rp.property, input.plan, input.stay)
  }

  /** The party is named, known, counted, and fits the room. */
  predicate PartyFits(input: ReserveInput, room: RoomType, guest: Uuid) {
    && input.guestAccepted && NIL !in {input.property, input.room, input.plan, guest}
    && 1 <= input.guests && (room.maxOccupancy > 0 ==> input.guests <= room.maxOccupancy)
  }

  /** A unit is left on every night. */
  predicate UnitsFree(inventory: Inventory, room: Uuid, stay: Stay) {
    forall x | stay.checkIn <= x < stay.checkOut ::
      Slot(room, x) in inventory && inventory[Slot(room, x)].booked < inventory[Slot(room, x)].allotment
  }

  /** All that a reservation asks of the stored rows, of those seen when it read the rates, and of what it draws. */
  ghost predicate Reservable(db: Db, seen: Db, input: ReserveInput, d: Draws, room: RoomType, rp: RatePlan) {
    && RoomIs(db.catalog, input.room, room) && room.property == input.property
    && PlanIs(db.catalog, input.plan, rp) && rp.room == input.room
    && PricedAt(seen, input, rp)
    && PartyFits(input, room, GuestFor(db, input, d))
    && 1 <= Int16(input.guests)
    && 0 <= TotalSeen(seen, input, rp).cents
    && UnitsFree(db.inventory, input.room, input.stay)
    && d.id !in db.reservations && d.reference !in db.refs && d.event !in db.outbox
  }

  function RatesSeen(seen: Db, input: ReserveInput): Result<seq<RateDay>> {
    ReadRates(seen, input.plan, input.stay.checkIn, input.stay.checkOut)
  }

  lemma SeenQuoted(seen: Db, input: ReserveInput, rp: RatePlan)
    requires PlanIs(seen.catalog, input.plan, rp)
    ensures RatesSeen(seen, input).Ok? && QuoteFor(input.stay, RatesSeen(seen, input).value).Ok? <==>
            PricedAt(seen, input, rp)
  {
    hide PlanIs, ReadRates, QuoteFor, PlanOpen;
    PlanQuoted(seen, input.plan, input.stay, rp);
  }

  /** The total of the nights at the prices seen, as int64 arithmetic gives it. */
  function TotalSeen(seen: Db, input: ReserveInput, rp: RatePlan): Money
    requires PricedAt(seen, input, rp)
  {
    Money(Wrap64(SumStored(seen.rates, input.plan, input.stay.checkIn, input.stay.checkOut)),
          seen.catalog.currencies[rp.property])
  }

  /** The nights of the stay, each at the price seen. */
  predicate NightsSeen(seen: Db, input: ReserveInput, rp: RatePlan, nights: seq<Night>)
    requires PricedAt(seen, input, rp)
  {
    && |nights| == input.stay.checkOut - input.stay.checkIn
    && forall i :: 0 <= i < |nights| ==>
         nights[i] == Night(input.stay.checkIn + i,
                            Money(seen.rates[RateKey(input.plan, input.stay.checkIn + i)].cents,
                                  seen.catalog.currencies[rp.property]))
  }

  /** What is drafted, exactly when the catalogue, the rates seen and the party allow it. */
  lemma PlannedIff(db: Db, seen: Db, input: ReserveInput, d: Draws, guest: Uuid)
    requires seen.catalog == db.catalog
    ensures Planned(db.catalog, input, RatesSeen(seen, input), guest, d).Ok? <==>
            exists room, rp ::
              && RoomIs(db.catalog, input.room, room) && room.property == input.property
              && PlanIs(db.catalog, input.plan, rp) && rp.room == input.room
              && PricedAt(seen, input, rp) && PartyFits(input, room, guest)
  {
    hide RoomIs, PlanIs, FindRoom, FindPlan, RatesSeen, QuoteFor, PricedAt, QuoteError;
    RoomFound(db.catalog, input.room);
    PlanFound(db.catalog, input.plan);
    var r := RatesSeen(seen, input);
    if FindRoom(db.catalog.rooms, input.room).Ok? && FindPlan(db.catalog.plans, input.plan).Ok? {
      var room, rp := FindRoom(db.catalog.rooms, input.room).value, FindPlan(db.catalog.plans, input.plan).value;
      assert RoomIs(db.catalog, input.room, room) && PlanIs(db.catalog, input.plan, rp);
      SeenQuoted(seen, input, rp);
      if r.Ok? && QuoteFor(input.stay, r.value).Ok? {
        NewAcceptsQuotes(NewInput(room.property, input.room, input.plan, guest, QuoteFor(input.stay, r.value).value,
                                  input.guests, room.maxOccupancy, d.now), r.value, input.stay, d.id, d.reference);
      }
    }
  }

  /** What has been drafted can be placed, exactly when the rows of the reservation are accepted and a unit is left on
      every night. */
  lemma PlaceableIff(db: Db, seen: Db, input: ReserveInput, d: Draws, guest: Uuid, rp: RatePlan)
    requires RowsInBounds(db.inventory) && seen.catalog == db.catalog && PlanIs(db.catalog, input.plan, rp)
    requires Planned(db.catalog, input, RatesSeen(seen, input), guest, d).Ok? && PricedAt(seen, input, rp)
    ensures CanPlace(db, Planned(db.catalog, input, RatesSeen(seen, input), guest, d).value) <==>
            && 1 <= Int16(input.guests)
            && 0 <= TotalSeen(seen, input, rp).cents
            && UnitsFree(db.inventory, input.room, input.stay)
            && d.id !in db.reservations && d.reference !in db.refs
  {
    hide RoomIs, PlanIs, FindRoom, FindPlan, ReadRates, QuoteFor, QuoteError, Planned, CanMove, UnitsFree, PriceStay, Draft,
         OpenFor, ValidCurrency;
    var rates := RatesSeen(seen, input);
    PlannedFacts(db.catalog, input, rates, guest, d);
    QuotedIff(seen, input.plan, input.stay, rp);
    var b := Planned(db.catalog, input, rates, guest, d).value;
    UnitsFreeIff(db.inventory, input.room, input.stay);
    NightsStorable(seen, input, rp, b.nights);
  }

  lemma UnitsFreeIff(inventory: Inventory, room: Uuid, stay: Stay)
    requires RowsInBounds(inventory)
    ensures CanMove(inventory, room, stay, 1) <==> UnitsFree(inventory, room, stay)
  {
    if UnitsFree(inventory, room, stay) {
      forall x | stay.checkIn <= x < stay.checkOut ensures CanTake(inventory, Slot(room, x), 1) {
        assert Slot(room, x) in inventory;
      }
    }
    if CanMove(inventory, room, stay, 1) {
      forall x | stay.checkIn <= x < stay.checkOut
        ensures Slot(room, x) in inventory && inventory[Slot(room, x)].booked < inventory[Slot(room, x)].allotment
      {
        assert CanTake(inventory, Slot(room, x), 1);
      }
    }
  }

  lemma NightsStorable(seen: Db, input: ReserveInput, rp: RatePlan, nights: seq<Night>)
    requires PricedAt(seen, input, rp) && NightsSeen(seen, input, rp, nights)
    ensures NightsAccepted(nights)
  {
    hide ValidCurrency;
    forall i | 0 <= i < |nights| ensures 0 <= nights[i].price.cents {
      assert RateKey(input.plan, input.stay.checkIn + i) in seen.rates;
    }
  }

  /** A request under an unused key, priced at the rates seen, commits if and only if it is reservable; otherwise the
      tables stay as they were. */
  lemma ReserveIff(db: Db, seen: Db, input: ReserveInput, d: Draws)
    requires RowsInBounds(db.inventory) && seen.catalog == db.catalog && input.key !in db.keys
    ensures var o := ReserveTx(db, input, RatesSeen(seen, input), d);
            && (o.result.Ok? <==> exists room, rp :: Reservable(db, seen, input, d, room, rp))
            && (o.result.Err? ==> o.db == db)
  {
    hide RowsInBounds, ReserveTx, RatesSeen, Planned, BookedDb, CanPlace, RoomIs, PlanIs, PricedAt, PartyFits, UnitsFree,
         SumStored;
    var rates, guest := RatesSeen(seen, input), GuestFor(db, input, d);
    ReserveEffect(db, input, rates, d);
    PlannedIff(db, seen, input, d, guest);
    if Planned(db.catalog, input, rates, guest, d).Ok? {
      var room, rp :| RoomIs(db.catalog, input.room, room) && room.property == input.property
                      && PlanIs(db.catalog, input.plan, rp) && rp.room == input.room
                      && PricedAt(seen, input, rp) && PartyFits(input, room, guest);
      PlaceableIff(db, seen, input, d, guest, rp);
      if CanBook(db, input, rates, d) {
        assert Reservable(db, seen, input, d, room, rp);
      }
    }
  }

  lemma {:induction false} NightRowsAre(nights: seq<Night>, a: Day)
    requires forall i :: 0 <= i < |nights| ==> nights[i].date == a + i
    ensures forall x :: x in NightRows(nights) <==> a <= x < a + |nights|
    ensures forall i :: 0 <= i < |nights| ==> NightRows(nights)[a + i] == nights[i].price.cents
  {
    if nights == [] {
    } else {
      var n := |nights| - 1;
      NightRowsAre(nights[..n], a);
      assert forall i :: 0 <= i < n ==> nights[..n][i] == nights[i];
      assert nights[n].date == a + n;
    }
  }

  lemma PlannedProperty(db: Db, input: ReserveInput, rates: Result<seq<RateDay>>, guest: Uuid, d: Draws)
    requires Planned(db.catalog, input, rates, guest, d).Ok?
    ensures Planned(db.catalog, input, rates, guest, d).value.property == input.property
  {
    hide QuoteFor, QuoteError;
  }

  /** The reservation that is committed. */
  lemma ReservedAs(db: Db, seen: Db, input: ReserveInput, d: Draws, rp: RatePlan) returns (b: Booking)
    requires seen.catalog == db.catalog && input.key !in db.keys
    requires PlanIs(db.catalog, input.plan, rp) && ReserveTx(db, input, RatesSeen(seen, input), d).result.Ok?
    ensures ReserveTx(db, input, RatesSeen(seen, input), d) ==
            Outcome(Ok(ReserveResult(b, false)), BookedDb(db, input, b, d.event))
    ensures PricedAt(seen, input, rp) && NightsSeen(seen, input, rp, b.nights)
    ensures b == Booking(d.id, d.reference, input.property, input.room, input.plan, GuestFor(db, input, d), input.stay,
                         input.guests, Confirmed, b.nights, TotalSeen(seen, input, rp), d.now, None)
  {
    hide ReserveTx, RatesSeen, Planned, BookedDb, CanPlace, PlanIs, PricedAt, SumStored, QuoteFor, NightsSeen, TotalSeen;
    var rates, guest := RatesSeen(seen, input), GuestFor(db, input, d);
    ReserveEffect(db, input, rates, d);
    PlannedFacts(db.catalog, input, rates, guest, d);
    PlannedProperty(db, input, rates, guest, d);
    SeenQuoted(seen, input, rp);
    QuoteSeen(seen, input, rp);
    b := Planned(db.catalog, input, rates, guest, d).value;
  }

  lemma QuoteSeen(seen: Db, input: ReserveInput, rp: RatePlan)
    requires PlanIs(seen.catalog, input.plan, rp) && PricedAt(seen, input, rp)
    requires RatesSeen(seen, input).Ok? && QuoteFor(input.stay, RatesSeen(seen, input).value).Ok?
    ensures var q := QuoteFor(input.stay, RatesSeen(seen, input).value).value;
            NightsSeen(seen, input, rp, q.nights) && q.total == TotalSeen(seen, input, rp)
  {
    hide PlanIs, ReadRates, QuoteFor, ValidCurrency, SumStored;
    QuotedIff(seen, input.plan, input.stay, rp);
  }

  /** The rows of a request stored under what it has drawn, with this guest and total. */
  predicate RowsStored(db: Db, input: ReserveInput, d: Draws, guest: Uuid, total: Money, after: Db) {
    && after.keys == db.keys[input.key := KeyRow(input.hash, Some(d.id))]
    && after.guests == db.guests[input.email := guest]
    && after.reservations ==
       db.reservations[d.id := ReservationRow(d.reference, input.property, input.room, input.plan, guest,
                                              input.stay.checkIn, input.stay.checkOut, Int16(input.guests), Confirmed,
                                              total.cents, total.currency, d.now, None)]
    && after.refs == db.refs[d.reference := d.id]
    && after.outbox ==
       db.outbox[d.event := Message(d.id, ConfirmedEvent,
                                    Payload(d.reference, Confirmed, input.stay, input.guests, total, 0, false), false, 0)]
    && after.catalog == db.catalog && after.rates == db.rates
  }

  /** A reservation that commits under an unused key records the key; stores the guest under the address, keeping an
      identifier that is there; stores the reservation as asked for, confirmed and at the total seen, and its reference;
      inserts one event, waiting to be sent, that says so; and leaves catalogue and rates alone. */
  lemma ReserveWrites(db: Db, seen: Db, input: ReserveInput, d: Draws, rp: RatePlan)
    requires seen.catalog == db.catalog && input.key !in db.keys
    requires PlanIs(db.catalog, input.plan, rp) && ReserveTx(db, input, RatesSeen(seen, input), d).result.Ok?
    ensures PricedAt(seen, input, rp)
    ensures RowsStored(db, input, d, if input.email in db.guests then db.guests[input.email] else d.guest,
                   TotalSeen(seen, input, rp), ReserveTx(db, input, RatesSeen(seen, input), d).db)
  {
    hide ReserveTx, RatesSeen, PlanIs, NightRows, SumStored, ValidCurrency, MovedRows;
    var b := ReservedAs(db, seen, input, d, rp);
  }

  ghost predicate NightsStored(db: Db, seen: Db, input: ReserveInput, id: Uuid, after: Db) {
    && id in after.nights && after.nights == db.nights[id := after.nights[id]]
    && (forall x :: x in after.nights[id] <==> input.stay.checkIn <= x < input.stay.checkOut)
    && (forall x :: x in after.nights[id] ==>
          RateKey(input.plan, x) in seen.rates && after.nights[id][x] == seen.rates[RateKey(input.plan, x)].cents)
  }

  /** It stores each night of the stay at the price seen, and no other night, and answers with what it has stored. */
  lemma ReserveStoresNights(db: Db, seen: Db, input: ReserveInput, d: Draws, rp: RatePlan)
    requires seen.catalog == db.catalog && input.key !in db.keys
    requires PlanIs(db.catalog, input.plan, rp) && ReserveTx(db, input, RatesSeen(seen, input), d).result.Ok?
    ensures NightsStored(db, seen, input, d.id, ReserveTx(db, input, RatesSeen(seen, input), d).db)
    ensures var r := ReserveTx(db, input, RatesSeen(seen, input), d).result;
            !r.value.replayed && r.value.booking.id == d.id && r.value.booking.reference == d.reference
  {
    hide ReserveTx, RatesSeen, PlanIs, NightRows, SumStored, ValidCurrency, MovedRows;
    var b := ReservedAs(db, seen, input, d, rp);
    NightRowsAre(b.nights, input.stay.checkIn);
    forall x | input.stay.checkIn <= x < input.stay.checkOut
      ensures NightRows(b.nights)[x] == seen.rates[RateKey(input.plan, x)].cents
    {
      var i := x - input.stay.checkIn;
      assert NightRows(b.nights)[input.stay.checkIn + i] == b.nights[i].price.cents;
    }
  }

  predicate UnitsTaken(inventory: Inventory, room: Uuid, stay: Stay, after: Inventory) {
    && after.Keys == inventory.Keys
    && forall slot :: slot in inventory ==>
         after[slot] ==
         (if slot.room == room && stay.checkIn <= slot.day < stay.checkOut
          then InventoryRow(inventory[slot].allotment, inventory[slot].booked + 1) else inventory[slot])
  }

  /** It takes one unit of each night of the stay, and leaves every other slot and every allotment alone. */
  lemma ReserveTakesUnits(db: Db, seen: Db, input: ReserveInput, d: Draws, rp: RatePlan)
    requires seen.catalog == db.catalog && input.key !in db.keys
    requires PlanIs(db.catalog, input.plan, rp) && ReserveTx(db, input, RatesSeen(seen, input), d).result.Ok?
    ensures UnitsTaken(db.inventory, input.room, input.stay, ReserveTx(db, input, RatesSeen(seen, input), d).db.inventory)
  {
    hide ReserveTx, RatesSeen, PlanIs, NightRows, SumStored, PricedAt, RowOf;
    var b := ReservedAs(db, seen, input, d, rp);
  }

  /** Under a used key nothing is written: the same request gets the reservation stored for the key, another one is
      refused. */
  lemma ReserveReplays(db: Db, input: ReserveInput, rates: Result<seq<RateDay>>, d: Draws)
    requires Consistent(db) && input.key in db.keys
    ensures var o, row := ReserveTx(db, input, rates, d), db.keys[input.key];
            && o.db == db && row.reservation.Some?
            && (row.hash != input.hash ==> o.result == Err(KeyReused))
            && (row.hash == input.hash ==>
                  o.result.Ok? && o.result.value.replayed && IsRow(db, row.reservation.value, o.result.value.booking))
  {
    hide Consistent, CountersAgree, RowsInBounds, EventsAgree, RefsAgree, RecordsSound, ByID, IsRow, ReserveTx;
    Agreements(db);
    RowsRead(db);
    ReplayEffect(db, input, rates, d);
    assert ByID(db, db.keys[input.key].reservation.value) == ByID(db, db.keys[input.key].reservation.value);
  }

  // Which refusal answers which obstacle, in the order in which they are met

  /** The refusal is that of the body, which is priced first. */
  lemma RefusedAs(db: Db, input: ReserveInput, rates: Result<seq<RateDay>>, d: Draws)
    requires input.key !in db.keys
    ensures var r, p := ReserveTx(db, input, rates, d).result, PriceStay(db.catalog, input, rates);
            && (p.Err? ==> r == Err(p.error))
            && (p.Ok? && !input.guestAccepted ==> r == Err(InvalidGuest))
            && (p.Ok? && input.guestAccepted ==>
                  var b := Draft(db.catalog, input, p.value, GuestFor(db, input, d), d);
                  b.Err? ==> r == Err(b.error))
  {
    hide FindRoom, FindPlan, QuoteFor, PriceStay, Draft, Place;
  }

  /** The catalogue: an unknown room type, one of another property, an unknown plan, one of another room type. */
  lemma RefusedByCatalogue(db: Db, input: ReserveInput, rates: Result<seq<RateDay>>, d: Draws)
    requires input.key !in db.keys
    ensures var r := ReserveTx(db, input, rates, d).result;
            && ((forall room :: !RoomIs(db.catalog, input.room, room)) ==> r == Err(RecordNotFound))
            && (forall room :: RoomIs(db.catalog, input.room, room) ==>
                  && (room.property != input.property ==> r == Err(RoomTypeNotFound))
                  && (room.property == input.property ==>
                        && ((forall rp :: !PlanIs(db.catalog, input.plan, rp)) ==> r == Err(RecordNotFound))
                        && (forall rp :: PlanIs(db.catalog, input.plan, rp) && rp.room != input.room ==>
                              r == Err(RatePlanMismatch))))
  {
    hide RoomIs, PlanIs, FindRoom, FindPlan, QuoteFor, ReserveTx;
    RoomFound(db.catalog, input.room);
    PlanFound(db.catalog, input.plan);
    RefusedAs(db, input, rates, d);
    if FindRoom(db.catalog.rooms, input.room).Ok? {
      assert RoomIs(db.catalog, input.room, FindRoom(db.catalog.rooms, input.room).value);
      if FindPlan(db.catalog.plans, input.plan).Ok? {
        assert PlanIs(db.catalog, input.plan, FindPlan(db.catalog.plans, input.plan).value);
      }
    }
  }

  /** Room type and plan are known and belong together. */
  ghost predicate InCatalogue(db: Db, input: ReserveInput, room: RoomType, rp: RatePlan) {
    && RoomIs(db.catalog, input.room, room) && room.property == input.property
    && PlanIs(db.catalog, input.plan, rp) && rp.room == input.room
  }

  lemma PricedInCatalogue(db: Db, input: ReserveInput, rates: Result<seq<RateDay>>, room: RoomType, rp: RatePlan)
    requires InCatalogue(db, input, room, rp)
    ensures PriceStay(db.catalog, input, rates) ==
            if rates.Err? then Err(rates.error) else QuoteFor(input.stay, rates.value)
    ensures forall quote, guest, d ::
              Draft(db.catalog, input, quote, guest, d) ==
              New(NewInput(room.property, input.room, input.plan, guest, quote, input.guests, room.maxOccupancy, d.now),
                  d.id, d.reference)
  {
    hide RoomIs, PlanIs, FindRoom, FindPlan, QuoteFor, New;
    RoomFound(db.catalog, input.room);
    PlanFound(db.catalog, input.plan);
  }

  /** The rates seen: one that is no money; none at all, where the property is not known; a first day closed to
      arrival, a day of departure closed to it, a night without a rate, too few nights. */
  lemma RefusedByRates(db: Db, seen: Db, input: ReserveInput, d: Draws, room: RoomType, rp: RatePlan)
    requires seen.catalog == db.catalog && input.key !in db.keys && InCatalogue(db, input, room, rp)
    requires !PricedAt(seen, input, rp)
    ensures ReserveTx(db, input, RatesSeen(seen, input), d).result ==
            Err(if PlanCorrupt(seen, rp.property, input.plan, input.stay) then CorruptRate
                else if rp.property !in seen.catalog.currencies then RateUnavailable
                else if NoArrival(seen.rates, input.plan, input.stay.checkIn) then ClosedToArrival
                else if NoDeparture(seen.rates, input.plan, input.stay.checkOut) then ClosedToDeparture
                else if !NightsPriced(seen.rates, input.plan, input.stay) then RateUnavailable
                else MinStayNotMet)
  {
    hide RoomIs, PlanIs, ReadRates, QuoteFor, ValidCurrency, ReserveTx, PriceStay, NoArrival, NoDeparture, NightsPriced,
         OpenFor;
    var rates := RatesSeen(seen, input);
    RefusedAs(db, input, rates, d);
    PricedInCatalogue(db, input, rates, room, rp);
    if rp.property in seen.catalog.currencies {
      RatesReadAre(seen, input.plan, input.stay.checkIn, input.stay.checkOut, rp);
      if rates.Ok? {
        NotOpen(seen, input, rp);
        RefusedQuote(seen, input.plan, input.stay, rp);
      }
    } else {
      OnlyPlan(seen.catalog, input.plan, rp);
      NothingRead(seen, input.plan, input.stay.checkIn, input.stay.checkOut);
      NoRatesNoQuote(input.stay);
    }
  }

  lemma NotOpen(seen: Db, input: ReserveInput, rp: RatePlan)
    requires rp.property in seen.catalog.currencies && !PricedAt(seen, input, rp)
    requires forall x | input.stay.checkIn <= x <= input.stay.checkOut && RateKey(input.plan, x) in seen.rates ::
               ValidCurrency(seen.catalog.currencies[rp.property]) && 0 <= seen.rates[RateKey(input.plan, x)].cents
    ensures !OpenFor(seen.rates, input.plan, input.stay)
  {
    hide ValidCurrency;
    if OpenFor(seen.rates, input.plan, input.stay) {
      FirstNightStored(seen.rates, input.plan, input.stay);
    }
  }

  /** The party: details that are not accepted, a missing identifier, nobody, too many. */
  lemma RefusedParty(db: Db, seen: Db, input: ReserveInput, d: Draws, room: RoomType, rp: RatePlan)
    requires seen.catalog == db.catalog && input.key !in db.keys && InCatalogue(db, input, room, rp)
    requires PricedAt(seen, input, rp) && !PartyFits(input, room, GuestFor(db, input, d))
    ensures ReserveTx(db, input, RatesSeen(seen, input), d).result ==
            Err(if !input.guestAccepted then InvalidGuest
                else if NIL in {input.property, input.room, input.plan, GuestFor(db, input, d)} then MissingIdentifier
                else if input.guests < 1 then InvalidGuestCount
                else OccupancyExceeded)
  {
    hide RoomIs, PlanIs, RatesSeen, QuoteFor, ReserveTx, PriceStay, PricedAt, Draft;
    var rates := RatesSeen(seen, input);
    RefusedAs(db, input, rates, d);
    PricedInCatalogue(db, input, rates, room, rp);
    SeenQuoted(seen, input, rp);
  }

  /** The first night of the stay with a row that has no unit left. */
  predicate FirstFull(inventory: Inventory, room: Uuid, stay: Stay, x: Day) {
    && stay.checkIn <= x < stay.checkOut
    && Slot(room, x) in inventory && inventory[Slot(room, x)].allotment <= inventory[Slot(room, x)].booked
    && forall y | stay.checkIn <= y < x && Slot(room, y) in inventory ::
         inventory[Slot(room, y)].booked < inventory[Slot(room, y)].allotment
  }

  lemma {:induction false} FirstComplaintOf(inventory: Inventory, room: Uuid, days: seq<Day>, x: Day)
    requires RowsInBounds(inventory) && StrictlyAscending(days) && x in days
    requires forall y :: y in days ==> Slot(room, y) in inventory
    requires inventory[Slot(room, x)].allotment <= inventory[Slot(room, x)].booked
    requires forall y :: y in days && y < x ==> inventory[Slot(room, y)].booked < inventory[Slot(room, y)].allotment
    ensures MoveError(inventory, room, days, 1) ==
            Some(if inventory[Slot(room, x)].booked == MAX_SMALLINT then DatabaseError else SoldOut)
    decreases |days|
  {
    assert forall y :: y in days <==> y == days[0] || y in days[1..];
    if x == days[0] {
    } else {
      assert days[0] < x;
      FirstComplaintOf(inventory, room, days[1..], x);
    }
  }

  lemma {:induction false} SomeFull(inventory: Inventory, room: Uuid, stay: Stay, n: Day) returns (x: Day)
    requires stay.checkIn < n <= stay.checkOut
    requires exists y :: stay.checkIn <= y < n && Slot(room, y) in inventory
                         && inventory[Slot(room, y)].allotment <= inventory[Slot(room, y)].booked
    ensures FirstFull(inventory, room, stay, x)
    decreases n - stay.checkIn
  {
    if exists y :: stay.checkIn <= y < n - 1 && Slot(room, y) in inventory
                   && inventory[Slot(room, y)].allotment <= inventory[Slot(room, y)].booked {
      x := SomeFull(inventory, room, stay, n - 1);
    } else {
      x := n - 1;
    }
  }

  lemma NoneFull(inventory: Inventory, room: Uuid, stay: Stay, y: Day)
    requires forall x :: !FirstFull(inventory, room, stay, x)
    requires stay.checkIn <= y < stay.checkOut && Slot(room, y) in inventory
    ensures inventory[Slot(room, y)].booked < inventory[Slot(room, y)].allotment
  {
    if inventory[Slot(room, y)].allotment <= inventory[Slot(room, y)].booked {
      var x := SomeFull(inventory, room, stay, stay.checkOut);
    }
  }

  /** Taking a unit of every night: the first that is full complains, and otherwise a missing row does. */
  lemma MoveRefused(db: Db, room: Uuid, stay: Stay)
    requires RowsInBounds(db.inventory) && !UnitsFree(db.inventory, room, stay)
    ensures var r := Move(db, room, stay, UNITS_PER_RESERVATION).result;
            if exists x :: FirstFull(db.inventory, room, stay, x) then
              forall x :: FirstFull(db.inventory, room, stay, x) ==>
                r == Err(if db.inventory[Slot(room, x)].booked == MAX_SMALLINT then DatabaseError else SoldOut)
            else r == Err(NoInventory)
  {
    hide RowsInBounds, MoveError, RowDays, CanMove, Move, Nights, MovedRows;
    var days := RowDays(db.inventory, room, stay.checkIn, stay.checkOut);
    MoveUnfolds(db, room, stay, UNITS_PER_RESERVATION, days);
    CanMoveIff(db.inventory, room, stay, 1);
    UnitsFreeIff(db.inventory, room, stay);
    if exists x :: FirstFull(db.inventory, room, stay, x) {
      forall x | FirstFull(db.inventory, room, stay, x)
        ensures MoveError(db.inventory, room, days, 1) ==
                Some(if db.inventory[Slot(room, x)].booked == MAX_SMALLINT then DatabaseError else SoldOut)
      {
        FullComplains(db.inventory, room, stay, days, x);
      }
    } else {
      MoveErrorIff(db.inventory, room, days, 1);
      forall y | y in days ensures CanTake(db.inventory, Slot(room, y), 1) {
        NoneFull(db.inventory, room, stay, y);
        BelowAllotment(db.inventory, Slot(room, y));
      }
    }
  }

  lemma BelowAllotment(inventory: Inventory, slot: Slot)
    requires RowsInBounds(inventory) && slot in inventory && inventory[slot].booked < inventory[slot].allotment
    ensures CanTake(inventory, slot, 1)
  {
  }

  lemma FullComplains(inventory: Inventory, room: Uuid, stay: Stay, days: seq<Day>, x: Day)
    requires RowsInBounds(inventory) && FirstFull(inventory, room, stay, x)
    requires days == RowDays(inventory, room, stay.checkIn, stay.checkOut)
    ensures MoveError(inventory, room, days, 1) ==
            Some(if inventory[Slot(room, x)].booked == MAX_SMALLINT then DatabaseError else SoldOut)
  {
    hide MoveError, RowsInBounds;
    FirstComplaintOf(inventory, room, days, x);
  }

  /** What stands behind a drafted request is placing it. */
  lemma RefusedAsPlaced(db: Db, input: ReserveInput, rates: Result<seq<RateDay>>, d: Draws, db1: Db)
    requires input.key !in db.keys && Planned(db.catalog, input, rates, GuestFor(db, input, d), d).Ok?
    requires db1 == db.(keys := db.keys[input.key := KeyRow(input.hash, None)],
                        guests := db.guests[input.email := GuestFor(db, input, d)])
    ensures var r := ReserveTx(db, input, rates, d).result;
            var b := Planned(db.catalog, input, rates, GuestFor(db, input, d), d).value;
            && (Place(db1, b).result.Err? ==> r == Err(Place(db1, b).result.error))
            && (Place(db1, b).result.Ok? ==> if d.event in db.outbox then r == Err(DatabaseError) else r.Ok?)
  {
    hide Planned, Place, FindRoom, FindPlan, Draft, PriceStay;
    var db0 := ClaimKey(db, input.key, input.hash).1;
    BookUnfolds(db0, input, rates, d);
    var b := Planned(db.catalog, input, rates, GuestFor(db, input, d), d).value;
    PlannedFacts(db.catalog, input, rates, GuestFor(db, input, d), d);
    PlaceEffect(db1, b);
    if Place(db1, b).result.Ok? {
      ConcludeEffect(Place(db1, b).db, input, b, d.event, db);
      EventUsed(Place(db1, b).db, input.key, b, d.event);
    }
  }

  lemma EventUsed(db: Db, key: string, b: Booking, event: int)
    requires key in db.keys
    ensures event in db.outbox ==> Conclude(db, key, b, event).result == Err(DatabaseError)
  {
    hide ConfirmedMessage;
  }

  lemma FullIsNotFree(inventory: Inventory, room: Uuid, stay: Stay, x: Day)
    requires FirstFull(inventory, room, stay, x)
    ensures !UnitsFree(inventory, room, stay)
  {
  }

  lemma PlaceRefused(db: Db, b: Booking)
    requires RowsInBounds(db.inventory) && b.status == Confirmed && b.cancelledAt == None && NightsAccepted(b.nights)
    ensures var r := Place(db, b).result;
            && (forall x :: FirstFull(db.inventory, b.room, b.stay, x) ==>
                  r == Err(if db.inventory[Slot(b.room, x)].booked == MAX_SMALLINT then DatabaseError else SoldOut))
            && ((forall x :: !FirstFull(db.inventory, b.room, b.stay, x)) ==>
                  if !UnitsFree(db.inventory, b.room, b.stay) then r == Err(NoInventory)
                  else if Int16(b.guestCount) < 1 || b.total.cents < 0 || b.id in db.reservations then r == Err(DatabaseError)
                  else if b.reference in db.refs then r == Err(DuplicateReference)
                  else r.Ok?)
  {
    hide RowsInBounds, FirstFull, UnitsFree, NightsAccepted, MovedRows, CanMove, Move;
    MoveSucceedsIff(db, b.room, b.stay, UNITS_PER_RESERVATION);
    UnitsFreeIff(db.inventory, b.room, b.stay);
    if UnitsFree(db.inventory, b.room, b.stay) {
      forall x ensures !FirstFull(db.inventory, b.room, b.stay, x) {
        if FirstFull(db.inventory, b.room, b.stay, x) {
          FullIsNotFree(db.inventory, b.room, b.stay, x);
        }
      }
    } else {
      MoveRefused(db, b.room, b.stay);
    }
  }

  /** What has been drafted, in terms of the request and the rates seen. */
  lemma DraftSeen(db: Db, seen: Db, input: ReserveInput, d: Draws, guest: Uuid, rp: RatePlan)
    requires seen.catalog == db.catalog && PlanIs(db.catalog, input.plan, rp) && PricedAt(seen, input, rp)
    requires Planned(db.catalog, input, RatesSeen(seen, input), guest, d).Ok?
    ensures var b := Planned(db.catalog, input, RatesSeen(seen, input), guest, d).value;
            && b.id == d.id && b.reference == d.reference && b.room == input.room && b.stay == input.stay
            && b.guestCount == input.guests && b.status == Confirmed && b.cancelledAt == None
            && b.total == TotalSeen(seen, input, rp) && NightsAccepted(b.nights)
  {
    hide PlanIs, RatesSeen, Planned, PricedAt, SumStored, QuoteFor, NightsAccepted;
    var rates := RatesSeen(seen, input);
    PlannedFacts(db.catalog, input, rates, guest, d);
    SeenQuoted(seen, input, rp);
    QuoteSeen(seen, input, rp);
    NightsStorable(seen, input, rp, QuoteFor(input.stay, rates.value).value.nights);
  }

  /** The rows: the first night that is full, or one that has no row; a head count that is not positive in sixteen
      bits, a total that has wrapped below zero, or an identifier in use; a reference in use; a number of the event in
      use. */
  lemma RefusedRows(db: Db, seen: Db, input: ReserveInput, d: Draws, room: RoomType, rp: RatePlan)
    requires RowsInBounds(db.inventory) && seen.catalog == db.catalog && input.key !in db.keys
    requires InCatalogue(db, input, room, rp) && PricedAt(seen, input, rp) && PartyFits(input, room, GuestFor(db, input, d))
    requires ReserveTx(db, input, RatesSeen(seen, input), d).result.Err?
    ensures var e := ReserveTx(db, input, RatesSeen(seen, input), d).result.error;
            && (forall x :: FirstFull(db.inventory, input.room, input.stay, x) ==>
                  e == (if db.inventory[Slot(input.room, x)].booked == MAX_SMALLINT then DatabaseError else SoldOut))
            && ((forall x :: !FirstFull(db.inventory, input.room, input.stay, x)) ==>
                  e == (if !UnitsFree(db.inventory, input.room, input.stay) then NoInventory
                        else if Int16(input.guests) < 1 || TotalSeen(seen, input, rp).cents < 0 || d.id in db.reservations
                        then DatabaseError
                        else if d.reference in db.refs then DuplicateReference
                        else DatabaseError))
  {
    hide RowsInBounds, RoomIs, PlanIs, RatesSeen, ReserveTx, Planned, FirstFull, UnitsFree, Place, SumStored, NightsAccepted;
    var rates, guest := RatesSeen(seen, input), GuestFor(db, input, d);
    PlannedIff(db, seen, input, d, guest);
    var b := Planned(db.catalog, input, rates, guest, d).value;
    var db1 := db.(keys := db.keys[input.key := KeyRow(input.hash, None)], guests := db.guests[input.email := guest]);
    DraftSeen(db, seen, input, d, guest, rp);
    RefusedAsPlaced(db, input, rates, d, db1);
    PlaceRefused(db1, b);
  }
}
