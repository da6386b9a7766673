/** What a committed transaction does to the tables, in one step, and exactly when it commits. */
module Effects {
  import opened Results
  import opened Words
  import opened Calendar
  import opened Stays
  import opened Moneys
  import opened Pricing
  import opened Bookings
  import opened Tables
  import opened Transactions
  import opened Stock

  // Booking

  function GuestFor(db: Db, input: ReserveInput, d: Draws): Uuid {
    if input.email in db.guests then db.guests[input.email] else d.guest
  }

  /** The reservation `book` drafts before it touches inventory. */
  function Planned(catalog: Catalog, input: ReserveInput, rates: Result<seq<RateDay>>, guest: Uuid,
                   d: Draws): Result<Booking> {
    var quote :- PriceStay(catalog, input, rates);
    if !input.guestAccepted then Err(InvalidGuest) else Draft(catalog, input, quote, guest, d)
  }

  predicate CanCreate(db: Db, b: Booking) {
    RowAccepted(RowOf(b)) && b.id !in db.reservations && b.reference !in db.refs && NightsAccepted(b.nights)
  }

  predicate CanPlace(db: Db, b: Booking) {
    CanMove(db.inventory, b.room, b.stay, UNITS_PER_RESERVATION) && CanCreate(db, b)
  }

  predicate CanBook(db: Db, input: ReserveInput, rates: Result<seq<RateDay>>, d: Draws) {
    var plan := Planned(db.catalog, input, rates, GuestFor(db, input, d), d);
    plan.Ok? && CanPlace(db, plan.value) && d.event !in db.outbox
  }

  function PlacedDb(db: Db, b: Booking): Db {
    db.(inventory := db.inventory + MovedRows(db.inventory, b.room, DaysOf(b.stay), UNITS_PER_RESERVATION),
        reservations := db.reservations[b.id := RowOf(b)],
        refs := db.refs[b.reference := b.id],
        nights := db.nights[b.id := NightRows(b.nights)])
  }

  /** Everything a committed reservation has written. */
  function BookedDb(db: Db, input: ReserveInput, b: Booking, event: int): Db {
    db.(keys := db.keys[input.key := KeyRow(input.hash, Some(b.id))],
        guests := db.guests[input.email := b.guest],
        inventory := db.inventory + MovedRows(db.inventory, b.room, DaysOf(b.stay), UNITS_PER_RESERVATION),
        reservations := db.reservations[b.id := RowOf(b)],
        refs := db.refs[b.reference := b.id],
        nights := db.nights[b.id := NightRows(b.nights)],
        outbox := db.outbox[event := ConfirmedMessage(b)])
  }

  lemma PlannedFacts(catalog: Catalog, input: ReserveInput, rates: Result<seq<RateDay>>, guest: Uuid, d: Draws)
    requires Planned(catalog, input, rates, guest, d).Ok?
    ensures var b := Planned(catalog, input, rates, guest, d).value;
            && b.id == d.id && b.reference == d.reference && b.room == input.room && b.stay == input.stay
            && b.plan == input.plan && b.guest == guest && b.guestCount == input.guests
            && b.status == Confirmed && b.cancelledAt == None && b.createdAt == d.now
            && rates.Ok? && QuoteFor(input.stay, rates.value).Ok?
            && b.nights == QuoteFor(input.stay, rates.value).value.nights
            && b.total == QuoteFor(input.stay, rates.value).value.total
  {
    CalculateSucceedsIff(input.stay, rates.value);
  }

  lemma CreateEffect(db: Db, b: Booking)
    ensures Create(db, b).result.Ok? <==> CanCreate(db, b)
    ensures CanCreate(db, b) ==>
              Create(db, b) ==
              Outcome(Ok(()), db.(reservations := db.reservations[b.id := RowOf(b)], refs := db.refs[b.reference := b.id],
                                  nights := db.nights[b.id := NightRows(b.nights)]))
  {
  }

  lemma PlaceEffect(db: Db, b: Booking)
    ensures Place(db, b).result.Ok? <==> CanPlace(db, b)
    ensures Place(db, b).result.Ok? ==> Place(db, b) == Outcome(Ok(b), PlacedDb(db, b))
  {
    MoveSucceedsIff(db, b.room, b.stay, UNITS_PER_RESERVATION);
    if CanMove(db.inventory, b.room, b.stay, UNITS_PER_RESERVATION) {
      CreateEffect(Move(db, b.room, b.stay, UNITS_PER_RESERVATION).db, b);
    }
  }

  /** `book` is the plan, placed after the guest's row has been written. */
  lemma BookUnfolds(db: Db, input: ReserveInput, rates: Result<seq<RateDay>>, d: Draws)
    ensures var plan, o := Planned(db.catalog, input, rates, GuestFor(db, input, d), d), Book(db, input, rates, d);
            && (plan.Err? ==> o.result == Err(plan.error))
            && (plan.Ok? ==> o == Place(UpsertGuest(db, input.email, d.guest).1, plan.value))
  {
  }

  lemma ConcludeEffect(db: Db, input: ReserveInput, b: Booking, event: int, before: Db)
    requires input.key !in before.keys
    requires db == PlacedDb(before.(keys := before.keys[input.key := KeyRow(input.hash, None)],
                                    guests := before.guests[input.email := b.guest]), b)
    ensures var o := Conclude(db, input.key, b, event);
            && (o.result.Ok? <==> event !in before.outbox)
            && (o.result.Ok? ==> o == Outcome(Ok(ReserveResult(b, false)), BookedDb(before, input, b, event)))
  {
    hide MovedRows, RowOf, NightRows, ConfirmedMessage, DaysOf;
    assert before.keys[input.key := KeyRow(input.hash, None)][input.key := KeyRow(input.hash, Some(b.id))] ==
           before.keys[input.key := KeyRow(input.hash, Some(b.id))];
  }

  /** A reservation under an unused key commits exactly when it can be booked, and then does all of it at once;
      otherwise the tables are as before. */
  lemma ReserveEffect(db: Db, input: ReserveInput, rates: Result<seq<RateDay>>, d: Draws)
    requires input.key !in db.keys
    ensures var o := ReserveTx(db, input, rates, d);
            && (o.result.Ok? <==> CanBook(db, input, rates, d))
            && (o.result.Err? ==> o.db == db)
            && (o.result.Ok? ==>
                  var b := Planned(db.catalog, input, rates, GuestFor(db, input, d), d).value;
                  o == Outcome(Ok(ReserveResult(b, false)), BookedDb(db, input, b, d.event)))
  {
    var guest := GuestFor(db, input, d);
    var plan := Planned(db.catalog, input, rates, guest, d);
    var db0 := ClaimKey(db, input.key, input.hash).1;
    assert GuestFor(db0, input, d) == guest;
    BookUnfolds(db0, input, rates, d);
    if plan.Ok? {
      var b := plan.value;
      PlannedFacts(db.catalog, input, rates, guest, d);
      var db1 := UpsertGuest(db0, input.email, d.guest).1;
      assert db1 == db.(keys := db.keys[input.key := KeyRow(input.hash, None)], guests := db.guests[input.email := b.guest]);
      PlaceEffect(db1, b);
      assert CanPlace(db1, b) <==> CanPlace(db, b);
      if CanPlace(db, b) {
        ConcludeEffect(PlacedDb(db1, b), input, b, d.event, db);
      }
    }
  }

  /** Under a used key nothing changes: the request is replayed exactly when its hash matches and the key has been
      recorded with a reservation that can be read. */
  lemma ReplayEffect(db: Db, input: ReserveInput, rates: Result<seq<RateDay>>, d: Draws)
    requires input.key in db.keys
    ensures var o, row := ReserveTx(db, input, rates, d), db.keys[input.key];
            && o.db == db
            && (o.result.Ok? <==> row.hash == input.hash && row.reservation.Some? && ByID(db, row.reservation.value).Ok?)
            && (o.result.Ok? ==> o.result.value == ReserveResult(ByID(db, row.reservation.value).value, true))
            && (row.hash != input.hash ==> o.result == Err(KeyReused))
  {
  }

  // Publishing: what is stored is what was asked for, as far as sixteen bits go

  /** A publishing that succeeds stores the number of units asked for on every day if and only if it is at most 32767;
      otherwise it stores what its low sixteen bits come to. */
  lemma PublishedAllotmentIff(db: Db, room: Uuid, from: Day, until: Day, allotment: int, d: Day)
    requires SetInventoryTx(db, room, from, until, allotment).result.Ok? && from <= d < until
    ensures var after := SetInventoryTx(db, room, from, until, allotment).db.inventory;
            && Slot(room, d) in after
            && after[Slot(room, d)].allotment == Int16(allotment)
            && (after[Slot(room, d)].allotment == allotment <==> allotment <= MAX_SMALLINT)
  {
    hide FindRoom;
    var rows := UpsertedRows(db.inventory, room, from, until, Int16(allotment));
    assert Slot(room, d) in rows;
  }

  /** Asking for 65541 units publishes five. */
  lemma AllotmentWraps(db: Db, room: Uuid, d: Day)
    requires FindRoom(db.catalog.rooms, room).Ok? && db.inventory == map[]
    ensures var o := SetInventoryTx(db, room, d, d + 1, 65541);
            o.result == Ok(()) && o.db.inventory == map[Slot(room, d) := InventoryRow(5, 0)]
  {
    assert Int16(65541) == 5;
    var rows := UpsertedRows(db.inventory, room, d, d + 1, 5);
    assert rows == map[Slot(room, d) := InventoryRow(5, 0)];
    assert UpsertError(db.inventory, room, d + 1, d + 1, 5) == None;
  }

  predicate IsEntry(day: RateDay, input: RateInput, currency: string) {
    && input.date == Some(day.date) && day.price == Money(input.cents, currency) && day.minStay == input.minStay
    && day.closedToArrival == input.closedToArrival && day.closedToDeparture == input.closedToDeparture
  }

  lemma {:induction false} RateDaysAre(inputs: seq<RateInput>, currency: string)
    requires RateDaysOf(inputs, currency).Ok?
    ensures var days := RateDaysOf(inputs, currency).value;
            && |days| == |inputs|
            && forall i :: 0 <= i < |inputs| ==> IsEntry(days[i], inputs[i], currency)
  {
    if inputs == [] {
    } else {
      RateDaysAre(inputs[1..], currency);
      assert forall i :: 0 < i < |inputs| ==> inputs[i] == inputs[1..][i - 1];
    }
  }

  lemma {:induction false} RateRowsAre(plan: Uuid, days: seq<RateDay>, i: nat)
    requires i < |days| && forall j, k :: 0 <= j < k < |days| ==> days[j].date != days[k].date
    ensures RateKey(plan, days[i].date) in RateRows(plan, days)
    ensures RateRows(plan, days)[RateKey(plan, days[i].date)] ==
            RateRow(days[i].price.cents, Int16(days[i].minStay), days[i].closedToArrival, days[i].closedToDeparture)
  {
    if i == |days| - 1 {
    } else {
      RateRowsAre(plan, days[..|days| - 1], i);
    }
  }

  /** Rates that are published are stored as asked for, the minimum stay if and only if it is at most 32767. */
  lemma PublishedRateIff(db: Db, plan: Uuid, inputs: seq<RateInput>, i: nat)
    requires SetRatesTx(db, plan, inputs).result.Ok? && i < |inputs|
    ensures inputs[i].date.Some? && RateKey(plan, inputs[i].date.value) in SetRatesTx(db, plan, inputs).db.rates
    ensures var row := SetRatesTx(db, plan, inputs).db.rates[RateKey(plan, inputs[i].date.value)];
            && row == RateRow(inputs[i].cents, Int16(inputs[i].minStay), inputs[i].closedToArrival, inputs[i].closedToDeparture)
            && (row.minStay == inputs[i].minStay <==> inputs[i].minStay <= MAX_SMALLINT)
  {
    hide FindPlan, FindRoom, RateRows, RateDaysOf;
    var currency := FindRoom(db.catalog.rooms, FindPlan(db.catalog.plans, plan).value.room).value.currency;
    var days := RateDaysOf(inputs, currency).value;
    RateDaysAre(inputs, currency);
    assert IsEntry(days[i], inputs[i], currency);
    RateRowsAre(plan, days, i);
    MinStayChecked(inputs, currency, i);
  }

  lemma {:induction false} MinStayChecked(inputs: seq<RateInput>, currency: string, i: nat)
    requires RateDaysOf(inputs, currency).Ok? && i < |inputs|
    ensures 1 <= inputs[i].minStay
  {
    if i == 0 {
    } else {
      MinStayChecked(inputs[1..], currency, i - 1);
    }
  }

  // Cancelling

  /** The writes of a cancellation can be made: the row is still confirmed, every night can be released. */
  predicate CanWithdraw(db: Db, cancelled: Booking, event: int) {
    && cancelled.id in db.reservations && db.reservations[cancelled.id].status == Confirmed
    && RowAccepted(CancelledRow(db, cancelled))
    && CanMove(db.inventory, cancelled.room, cancelled.stay, -UNITS_PER_RESERVATION)
    && cancelled.guest in db.guests.Values
    && event !in db.outbox
  }

  function CancelledRow(db: Db, cancelled: Booking): ReservationRow
    requires cancelled.id in db.reservations
  {
    db.reservations[cancelled.id].(status := cancelled.status, cancelledAt := cancelled.cancelledAt)
  }

  predicate CanCancel(db: Db, reference: string, now: Instant, event: int) {
    && ByReference(db, reference).Ok?
    && Assess(db.catalog, ByReference(db, reference).value, now).Ok?
    && CanWithdraw(db, Assess(db.catalog, ByReference(db, reference).value, now).value.booking, event)
  }

  /** Everything a committed cancellation has written. */
  function CancelledDb(db: Db, r: CancelResult, event: int): Db
    requires r.booking.id in db.reservations
  {
    var b := r.booking;
    db.(reservations := db.reservations[b.id := CancelledRow(db, b)],
        inventory := db.inventory + MovedRows(db.inventory, b.room, DaysOf(b.stay), -UNITS_PER_RESERVATION),
        outbox := db.outbox[event := CancelledMessage(b, r.cancellation)])
  }

  lemma WithdrawEffect(db: Db, cancelled: Booking, c: Cancellation, event: int)
    ensures var o := Withdraw(db, cancelled, c, event);
            && (o.result.Ok? <==> CanWithdraw(db, cancelled, event))
            && (o.result.Ok? ==>
                  o == Outcome(Ok(CancelResult(cancelled, c)), CancelledDb(db, CancelResult(cancelled, c), event)))
  {
    if CancelRow(db, cancelled).result.Ok? {
      var db1 := db.(reservations := db.reservations[cancelled.id := CancelledRow(db, cancelled)]);
      assert CancelRow(db, cancelled) == Outcome(Ok(()), db1);
      ReleaseEffect(db1, cancelled, c, event);
    }
  }

  lemma ReleaseEffect(db: Db, cancelled: Booking, c: Cancellation, event: int)
    ensures var o := ReleaseAndPublish(db, cancelled, c, event);
            && (o.result.Ok? <==> && CanMove(db.inventory, cancelled.room, cancelled.stay, -UNITS_PER_RESERVATION)
                                  && cancelled.guest in db.guests.Values
                                  && event !in db.outbox)
            && (o.result.Ok? ==>
                  o == Outcome(Ok(CancelResult(cancelled, c)),
                         db.(inventory := db.inventory + MovedRows(db.inventory, cancelled.room, DaysOf(cancelled.stay),
                                                                   -UNITS_PER_RESERVATION),
                             outbox := db.outbox[event := CancelledMessage(cancelled, c)])))
  {
    MoveSucceedsIff(db, cancelled.room, cancelled.stay, -UNITS_PER_RESERVATION);
  }

  /** A cancellation commits exactly when the reservation can be cancelled, all of it at once; otherwise the tables
      are as before. */
  lemma CancelEffect(db: Db, reference: string, now: Instant, event: int)
    ensures var o := CancelTx(db, reference, now, event);
            && (o.result.Ok? <==> CanCancel(db, reference, now, event))
            && (o.result.Err? ==> o.db == db)
            && (o.result.Ok? ==>
                  var r := Assess(db.catalog, ByReference(db, reference).value, now).value;
                  o == Outcome(Ok(r), CancelledDb(db, r, event)))
  {
    var read := ByReference(db, reference);
    if read.Ok? {
      var r := Assess(db.catalog, read.value, now);
      if r.Ok? {
        WithdrawEffect(db, r.value.booking, r.value.cancellation, event);
      }
    }
  }
}
