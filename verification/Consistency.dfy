/** The agreements between the tables, and that every transaction keeps them. */
module Consistency {
  import opened Results
  import opened Words
  import opened Collections
  import opened Calendar
  import opened Stays
  import opened Moneys
  import opened Pricing
  import opened Bookings
  import opened Tables
  import opened Transactions
  import opened Stock
  import opened Effects

  type Reservations = map<Uuid, ReservationRow>
  type Outbox = map<int, Message>

  // Counters agree with reservations

  predicate Occupies(row: ReservationRow, slot: Slot) {
    row.status == Confirmed && row.room == slot.room && row.checkIn <= slot.day < row.checkOut
  }

  /** The confirmed reservations that sleep in a room of this type on this day. */
  function Occupants(reservations: Reservations, slot: Slot): set<Uuid> {
    set id | id in reservations && Occupies(reservations[id], slot)
  }

  /** The stored counter, zero where no row exists. */
  function BookedAt(inventory: Inventory, slot: Slot): int {
    if slot in inventory then inventory[slot].booked else 0
  }

  /** Conservation: every counter is the number of confirmed reservations it stands for. */
  ghost predicate CountersAgree(inventory: Inventory, reservations: Reservations) {
    forall slot: Slot {:trigger Occupants(reservations, slot)} :: |Occupants(reservations, slot)| == BookedAt(inventory, slot)
  }

  // Every reservation can be read back: its stay, its nights and its total fit together

  ghost predicate RefsAgree(reservations: Reservations, refs: map<string, Uuid>) {
    && (forall id :: id in reservations ==> reservations[id].reference in refs && refs[reservations[id].reference] == id)
    && (forall r :: r in refs ==> refs[r] in reservations && reservations[refs[r]].reference == r)
  }

  function SumNights(rows: map<Day, Int64>, a: Day, b: Day): int
    decreases b - a
  {
    if a >= b then 0 else (if a in rows then rows[a] else 0) + SumNights(rows, a + 1, b)
  }

  ghost predicate RecordSound(row: ReservationRow, nights: map<Day, Int64>) {
    && ValidSpan(Span(row.checkIn, row.checkOut))
    && RowAccepted(row) && IsSmallint(row.guestCount)
    && ValidCurrency(row.currency)
    && (forall d :: d in nights <==> row.checkIn <= d < row.checkOut)
    && (forall d :: d in nights ==> 0 <= nights[d])
    && row.totalCents == Wrap64(SumNights(nights, row.checkIn, row.checkOut))
  }

  ghost predicate RecordsSound(reservations: Reservations, nights: map<Uuid, map<Day, Int64>>) {
    && nights.Keys == reservations.Keys
    && forall id :: id in reservations ==> RecordSound(reservations[id], nights[id])
  }

  // Keys agree with reservations, one to one

  ghost predicate Records(keys: map<string, KeyRow>, key: string, id: Uuid) {
    key in keys && keys[key].reservation == Some(id)
  }

  ghost predicate KeysAgree(keys: map<string, KeyRow>, reservations: Reservations) {
    && (forall k :: k in keys ==> keys[k].reservation.Some? && keys[k].reservation.value in reservations)
    && (forall k, l, id :: Records(keys, k, id) && Records(keys, l, id) ==> k == l)
    && (forall id :: id in reservations ==> exists k :: Records(keys, k, id))
  }

  // Events agree with status changes

  function EventsOf(outbox: Outbox, id: Uuid, kind: EventKind): set<int> {
    set e | e in outbox && outbox[e].aggregate == id && outbox[e].kind == kind
  }

  ghost predicate ReservationAnnounced(outbox: Outbox, id: Uuid, row: ReservationRow) {
    && |EventsOf(outbox, id, ConfirmedEvent)| == 1
    && |EventsOf(outbox, id, CancelledEvent)| == (if row.status == Cancelled then 1 else 0)
    && (forall c, x :: c in EventsOf(outbox, id, ConfirmedEvent) && x in EventsOf(outbox, id, CancelledEvent) ==> c < x)
  }

  /** What an event says is what is stored: reference, stay, head count and total; its status is the one it announces. */
  predicate Tells(p: Payload, kind: EventKind, row: ReservationRow) {
    && p.reference == row.reference
    && p.stay == Span(row.checkIn, row.checkOut)
    && Int16(p.guestCount) == row.guestCount
    && p.total == Money(row.totalCents, row.currency)
    && p.status == (if kind == ConfirmedEvent then Confirmed else Cancelled)
  }

  /** It refunds the whole total if it says so, and nothing otherwise; a confirmation never does. */
  predicate RefundsRight(p: Payload, kind: EventKind) {
    && p.refundCents == (if p.refundable then p.total.cents else 0)
    && (kind == ConfirmedEvent ==> !p.refundable)
  }

  ghost predicate MessageSound(m: Message, reservations: Reservations) {
    && m.aggregate in reservations
    && Tells(m.payload, m.kind, reservations[m.aggregate])
    && RefundsRight(m.payload, m.kind)
    && 0 <= m.attempts <= MAX_ATTEMPTS
  }

  ghost predicate EventsAgree(outbox: Outbox, reservations: Reservations) {
    && (forall id :: id in reservations ==> ReservationAnnounced(outbox, id, reservations[id]))
    && (forall e :: e in outbox ==> MessageSound(outbox[e], reservations))
  }

  ghost predicate GuestsKnown(guests: map<string, Uuid>, reservations: Reservations) {
    forall id :: id in reservations ==> reservations[id].guest in guests.Values
  }

  ghost predicate PlansKnown(catalog: Catalog, reservations: Reservations) {
    forall id :: id in reservations ==> FindPlan(catalog.plans, reservations[id].plan).Ok?
  }

  ghost predicate Consistent(db: Db) {
    && RowsInBounds(db.inventory)
    && CountersAgree(db.inventory, db.reservations)
    && RefsAgree(db.reservations, db.refs)
    && RecordsSound(db.reservations, db.nights)
    && KeysAgree(db.keys, db.reservations)
    && EventsAgree(db.outbox, db.reservations)
    && GuestsKnown(db.guests, db.reservations)
    && PlansKnown(db.catalog, db.reservations)
  }

  /** The agreements one by one. */
  lemma Agreements(db: Db)
    requires Consistent(db)
    ensures RowsInBounds(db.inventory) && CountersAgree(db.inventory, db.reservations)
    ensures RefsAgree(db.reservations, db.refs) && RecordsSound(db.reservations, db.nights)
    ensures KeysAgree(db.keys, db.reservations) && EventsAgree(db.outbox, db.reservations)
    ensures GuestsKnown(db.guests, db.reservations) && PlansKnown(db.catalog, db.reservations)
  {
    hide RowsInBounds, CountersAgree, RefsAgree, RecordsSound, KeysAgree, EventsAgree, GuestsKnown, PlansKnown;
  }

  lemma FreshlyMigrated(catalog: Catalog, rates: map<RateKey, RateRow>)
    ensures Consistent(Db(catalog, rates, map[], map[], map[], map[], map[], map[], map[]))
  {
    forall slot: Slot ensures |Occupants(map[], slot)| == 0 {
      assert Occupants(map[], slot) == {};
    }
  }

  // Rates as read

  /** Rates read from the calendar are money: a valid currency and no negative price. */
  ghost predicate RatesSound(days: seq<RateDay>) {
    forall i :: 0 <= i < |days| ==> ValidCurrency(days[i].price.currency) && 0 <= days[i].price.cents
  }

  lemma {:induction false} RateDaysSound(rates: map<RateKey, RateRow>, plan: Uuid, currency: string, days: seq<Day>)
    requires forall d :: d in days ==> RateKey(plan, d) in rates
    ensures RateDays(rates, plan, currency, days).Ok? ==> RatesSound(RateDays(rates, plan, currency, days).value)
  {
    if days == [] {
    } else {
      RateDaysSound(rates, plan, currency, days[1..]);
    }
  }

  lemma ReadRatesSound(db: Db, plan: Uuid, from: Day, to: Day)
    ensures ReadRates(db, plan, from, to).Ok? ==> RatesSound(ReadRates(db, plan, from, to).value)
  {
    if FindPlan(db.catalog.plans, plan).Ok? {
      var rp := FindPlan(db.catalog.plans, plan).value;
      if rp.property in db.catalog.currencies {
        RateDaysSound(db.rates, plan, db.catalog.currencies[rp.property], Ascending(RateWindow(db.rates, plan, from, to)));
      }
    }
  }

  lemma {:induction false} ByDateSound(days: seq<RateDay>)
    requires RatesSound(days)
    ensures forall d :: d in ByDate(days) ==> ValidCurrency(ByDate(days)[d].price.currency) && 0 <= ByDate(days)[d].price.cents
  {
    if days == [] {
    } else {
      ByDateSound(days[..|days| - 1]);
    }
  }

  // The record a booking stores

  lemma {:induction false} NightRowsOf(m: map<Day, RateDay>, a: Day, b: Day)
    requires a <= b && forall d | a <= d < b :: d in m
    ensures NightRows(NightsOf(m, a, b)) == map d | d in m && a <= d < b :: m[d].price.cents
    decreases b - a
  {
    if a == b {
    } else {
      var all := NightsOf(m, a, b);
      assert all[..|all| - 1] == NightsOf(m, a, b - 1);
      NightRowsOf(m, a, b - 1);
    }
  }

  lemma {:induction false} SumNightsOf(rows: map<Day, Int64>, m: map<Day, RateDay>, a: Day, b: Day)
    requires a <= b && forall d | a <= d < b :: d in m && d in rows && rows[d] == m[d].price.cents
    ensures SumNights(rows, a, b) == SumCents(m, a, b)
    decreases b - a
  {
    if a == b {
    } else {
      SumNightsOf(rows, m, a + 1, b);
    }
  }

  /** What a drafted reservation would store is sound, provided the database accepts its row. */
  lemma PlannedIsSound(catalog: Catalog, input: ReserveInput, rates: Result<seq<RateDay>>, guest: Uuid, d: Draws)
    requires Planned(catalog, input, rates, guest, d).Ok?
    requires rates.Ok? ==> RatesSound(rates.value)
    ensures var b := Planned(catalog, input, rates, guest, d).value;
            && NightsAccepted(b.nights)
            && (RowAccepted(RowOf(b)) ==> RecordSound(RowOf(b), NightRows(b.nights)))
            && FindPlan(catalog.plans, b.plan).Ok?
  {
    PlannedFacts(catalog, input, rates, guest, d);
    var b := Planned(catalog, input, rates, guest, d).value;
    var m := ByDate(rates.value);
    CalculateSucceedsIff(input.stay, rates.value);
    ByDateSound(rates.value);
    NightRowsOf(m, b.stay.checkIn, b.stay.checkOut);
    SumNightsOf(NightRows(b.nights), m, b.stay.checkIn, b.stay.checkOut);
  }

  // Booking keeps the agreements

  lemma MovedCounters(inventory: Inventory, room: Uuid, stay: Stay, delta: int, slot: Slot)
    requires CanMove(inventory, room, stay, delta)
    ensures BookedAt(inventory + MovedRows(inventory, room, DaysOf(stay), delta), slot) ==
            BookedAt(inventory, slot) + (if slot.room == room && Contains(stay, slot.day) then delta else 0)
  {
    if slot.room == room && Contains(stay, slot.day) {
      assert CanTake(inventory, Slot(room, slot.day), delta);
    }
  }

  lemma MoveKeepsBounds(inventory: Inventory, room: Uuid, stay: Stay, delta: int)
    requires RowsInBounds(inventory) && CanMove(inventory, room, stay, delta)
    ensures RowsInBounds(inventory + MovedRows(inventory, room, DaysOf(stay), delta))
  {
    var rows := MovedRows(inventory, room, DaysOf(stay), delta);
    forall s | s in rows ensures NotOversold(rows[s]) && rows[s].allotment <= MAX_SMALLINT {
      assert CanTake(inventory, Slot(room, s.day), delta);
    }
  }

  lemma BookKeepsCounters(inventory: Inventory, reservations: Reservations, b: Booking)
    requires CountersAgree(inventory, reservations)
    requires CanMove(inventory, b.room, b.stay, 1) && b.id !in reservations && b.status == Confirmed
    ensures CountersAgree(inventory + MovedRows(inventory, b.room, DaysOf(b.stay), 1), reservations[b.id := RowOf(b)])
  {
    var after := reservations[b.id := RowOf(b)];
    forall slot: Slot
      ensures |Occupants(after, slot)| == BookedAt(inventory + MovedRows(inventory, b.room, DaysOf(b.stay), 1), slot)
    {
      MovedCounters(inventory, b.room, b.stay, 1, slot);
      if slot.room == b.room && Contains(b.stay, slot.day) {
        assert Occupants(after, slot) == Occupants(reservations, slot) + {b.id};
      } else {
        assert Occupants(after, slot) == Occupants(reservations, slot);
      }
    }
  }

  lemma BookKeepsKeys(keys: map<string, KeyRow>, reservations: Reservations, key: string, hash: string, id: Uuid,
                      row: ReservationRow)
    requires KeysAgree(keys, reservations) && key !in keys && id !in reservations
    ensures KeysAgree(keys[key := KeyRow(hash, Some(id))], reservations[id := row])
  {
    var after, rows := keys[key := KeyRow(hash, Some(id))], reservations[id := row];
    forall x | x in rows ensures exists k :: Records(after, k, x) {
      if x == id {
        assert Records(after, key, x);
      } else {
        var k :| Records(keys, k, x);
        assert Records(after, k, x);
      }
    }
    forall k, l, x | Records(after, k, x) && Records(after, l, x) ensures k == l {
      if k != key && l != key {
        assert Records(keys, k, x) && Records(keys, l, x);
      }
    }
  }

  lemma EventAdded(outbox: Outbox, event: int, m: Message, id: Uuid, kind: EventKind)
    requires event !in outbox
    ensures EventsOf(outbox[event := m], id, kind) ==
            EventsOf(outbox, id, kind) + (if m.aggregate == id && m.kind == kind then {event} else {})
  {
  }

  lemma NoEventsYet(outbox: Outbox, reservations: Reservations, id: Uuid, kind: EventKind)
    requires EventsAgree(outbox, reservations) && id !in reservations
    ensures EventsOf(outbox, id, kind) == {}
  {
    assert forall e :: e in outbox ==> MessageSound(outbox[e], reservations);
    assert forall e :: e in EventsOf(outbox, id, kind) ==> outbox[e].aggregate in reservations;
  }

  lemma BookKeepsEvents(outbox: Outbox, reservations: Reservations, b: Booking, event: int)
    requires EventsAgree(outbox, reservations) && event !in outbox && b.id !in reservations
    requires b.status == Confirmed
    ensures EventsAgree(outbox[event := ConfirmedMessage(b)], reservations[b.id := RowOf(b)])
  {
    var after, rows := outbox[event := ConfirmedMessage(b)], reservations[b.id := RowOf(b)];
    forall id | id in rows ensures ReservationAnnounced(after, id, rows[id]) {
      EventAdded(outbox, event, ConfirmedMessage(b), id, ConfirmedEvent);
      EventAdded(outbox, event, ConfirmedMessage(b), id, CancelledEvent);
      if id == b.id {
        NoEventsYet(outbox, reservations, id, ConfirmedEvent);
        NoEventsYet(outbox, reservations, id, CancelledEvent);
      } else {
        assert ReservationAnnounced(outbox, id, reservations[id]);
      }
    }
    forall e | e in after ensures MessageSound(after[e], rows) {
      if e != event {
        assert MessageSound(outbox[e], reservations);
      }
    }
  }

  lemma BookKeepsGuests(guests: map<string, Uuid>, reservations: Reservations, email: string, b: Booking)
    requires GuestsKnown(guests, reservations)
    requires email in guests ==> b.guest == guests[email]
    ensures GuestsKnown(guests[email := b.guest], reservations[b.id := RowOf(b)])
  {
    var after := guests[email := b.guest];
    assert email in after && after[email] == b.guest;
    forall g | g in guests.Values ensures g in after.Values {
      var e :| e in guests && guests[e] == g;
      assert e in after && after[e] == g;
    }
  }

  lemma BookKeepsRefs(reservations: Reservations, refs: map<string, Uuid>, b: Booking)
    requires RefsAgree(reservations, refs) && b.id !in reservations && b.reference !in refs
    ensures RefsAgree(reservations[b.id := RowOf(b)], refs[b.reference := b.id])
  {
  }

  lemma BookKeepsRecords(reservations: Reservations, nights: map<Uuid, map<Day, Int64>>, b: Booking)
    requires RecordsSound(reservations, nights) && RecordSound(RowOf(b), NightRows(b.nights))
    ensures RecordsSound(reservations[b.id := RowOf(b)], nights[b.id := NightRows(b.nights)])
  {
  }

  /** A booking that is sound as a record and can be placed. */
  ghost predicate Placeable(db: Db, input: ReserveInput, b: Booking, event: int) {
    && input.key !in db.keys && CanPlace(db, b) && event !in db.outbox
    && b.status == Confirmed && RecordSound(RowOf(b), NightRows(b.nights))
    && FindPlan(db.catalog.plans, b.plan).Ok?
    && (input.email in db.guests ==> b.guest == db.guests[input.email])
  }

  lemma PlacingKeepsStock(db: Db, input: ReserveInput, b: Booking, event: int)
    requires Consistent(db) && Placeable(db, input, b, event)
    ensures var after := BookedDb(db, input, b, event);
            && RowsInBounds(after.inventory)
            && CountersAgree(after.inventory, after.reservations)
            && RefsAgree(after.reservations, after.refs)
            && RecordsSound(after.reservations, after.nights)
  {
    MoveKeepsBounds(db.inventory, b.room, b.stay, 1);
    BookKeepsCounters(db.inventory, db.reservations, b);
    BookKeepsRefs(db.reservations, db.refs, b);
    BookKeepsRecords(db.reservations, db.nights, b);
  }

  lemma PlacingKeepsLedger(db: Db, input: ReserveInput, b: Booking, event: int)
    requires Consistent(db) && Placeable(db, input, b, event)
    ensures var after := BookedDb(db, input, b, event);
            && KeysAgree(after.keys, after.reservations)
            && EventsAgree(after.outbox, after.reservations)
            && GuestsKnown(after.guests, after.reservations)
            && PlansKnown(after.catalog, after.reservations)
  {
    BookKeepsKeys(db.keys, db.reservations, input.key, input.hash, b.id, RowOf(b));
    BookKeepsEvents(db.outbox, db.reservations, b, event);
    BookKeepsGuests(db.guests, db.reservations, input.email, b);
  }

  /** A committed reservation keeps every agreement. */
  lemma BookingKeepsConsistency(db: Db, input: ReserveInput, rates: Result<seq<RateDay>>, d: Draws)
    requires Consistent(db)
    requires input.key !in db.keys && CanBook(db, input, rates, d)
    requires rates.Ok? ==> RatesSound(rates.value)
    ensures Consistent(BookedDb(db, input, Planned(db.catalog, input, rates, GuestFor(db, input, d), d).value, d.event))
  {
    var guest := GuestFor(db, input, d);
    var b := Planned(db.catalog, input, rates, guest, d).value;
    PlannedFacts(db.catalog, input, rates, guest, d);
    PlannedIsSound(db.catalog, input, rates, guest, d);
    PlacingKeepsStock(db, input, b, d.event);
    PlacingKeepsLedger(db, input, b, d.event);
  }

  // Reading back

  /** The night rows from `a` to `b` as nights, in order. */
  function StoredNights(rows: map<Day, Int64>, currency: string, a: Day, b: Day): (nights: seq<Night>)
    requires a <= b && forall d | a <= d < b :: d in rows
    ensures |nights| == b - a
    ensures forall i :: 0 <= i < |nights| ==> nights[i] == Night(a + i, Money(rows[a + i], currency))
    decreases b - a
  {
    if a == b then [] else [Night(a, Money(rows[a], currency))] + StoredNights(rows, currency, a + 1, b)
  }

  lemma {:induction false} ReadNightsOf(rows: map<Day, Int64>, currency: string, a: Day, b: Day)
    requires a <= b && ValidCurrency(currency)
    requires forall d | a <= d < b :: d in rows && 0 <= rows[d]
    ensures ReadNights(rows, currency, Range(a, b)) == Ok(StoredNights(rows, currency, a, b))
    decreases b - a
  {
    if a == b {
    } else {
      ReadNightsOf(rows, currency, a + 1, b);
      assert Range(a, b)[1..] == Range(a + 1, b);
    }
  }

  /** The reservation stored under `id`, with its nights in order of date. */
  function Stored(row: ReservationRow, rows: map<Day, Int64>, id: Uuid): Booking
    requires ValidSpan(Span(row.checkIn, row.checkOut))
    requires forall d | row.checkIn <= d < row.checkOut :: d in rows
  {
    Booking(id, row.reference, row.property, row.room, row.plan, row.guest, Span(row.checkIn, row.checkOut),
            row.guestCount, row.status, StoredNights(rows, row.currency, row.checkIn, row.checkOut),
            Money(row.totalCents, row.currency), row.createdAt, row.cancelledAt)
  }

  lemma {:induction false} AddUpStored(rows: map<Day, Int64>, currency: string, a: Day, b: Day, total: Money)
    requires a <= b && ValidCurrency(currency) && total.currency == currency
    requires forall d | a <= d < b :: d in rows
    ensures AddUp(StoredNights(rows, currency, a, b), total) ==
            Ok(Money(Wrap64(total.cents + SumNights(rows, a, b)), currency))
    decreases b - a
  {
    if a == b {
    } else {
      var sum := Money(Wrap64(total.cents + rows[a]), currency);
      assert StoredNights(rows, currency, a, b)[1..] == StoredNights(rows, currency, a + 1, b);
      AddUpStored(rows, currency, a + 1, b, sum);
      WrapAdd(total.cents + rows[a], SumNights(rows, a + 1, b));
    }
  }

  lemma TotalOfStored(row: ReservationRow, rows: map<Day, Int64>)
    requires RecordSound(row, rows)
    ensures AddUp(StoredNights(rows, row.currency, row.checkIn, row.checkOut), NOTHING) ==
            Ok(Money(row.totalCents, row.currency))
  {
    var nights := StoredNights(rows, row.currency, row.checkIn, row.checkOut);
    assert nights[1..] == StoredNights(rows, row.currency, row.checkIn + 1, row.checkOut);
    AddUpStored(rows, row.currency, row.checkIn + 1, row.checkOut, nights[0].price);
  }

  lemma NightsReadAsStored(row: ReservationRow, rows: map<Day, Int64>)
    requires RecordSound(row, rows)
    ensures ReadNights(rows, row.currency, Ascending(rows.Keys)) ==
            Ok(StoredNights(rows, row.currency, row.checkIn, row.checkOut))
  {
    AscendingUnique(Ascending(rows.Keys), Range(row.checkIn, row.checkOut));
    ReadNightsOf(rows, row.currency, row.checkIn, row.checkOut);
  }

  lemma SoundRecordsRead(db: Db, id: Uuid)
    requires id in db.reservations && id in db.nights && RecordSound(db.reservations[id], db.nights[id])
    ensures ByID(db, id) == Ok(Stored(db.reservations[id], db.nights[id], id))
  {
    var row, rows := db.reservations[id], db.nights[id];
    NightsReadAsStored(row, rows);
    assert StayOfDays(row.checkIn, row.checkOut) == Ok(Span(row.checkIn, row.checkOut));
    assert NewMoney(row.totalCents, row.currency) == Ok(Money(row.totalCents, row.currency));
  }

  /** Every stored reservation can be read back. */
  lemma StoredReservationsRead(db: Db, id: Uuid)
    requires RecordsSound(db.reservations, db.nights) && id in db.reservations
    ensures RecordSound(db.reservations[id], db.nights[id])
    ensures ByID(db, id) == Ok(Stored(db.reservations[id], db.nights[id], id))
  {
    SoundRecordsRead(db, id);
  }

  /** Price integrity: a sound record has exactly the days of its stay as nights, in order, and its nights add up to
      its total, as `Validate` would add them. */
  lemma StoredPricesAddUp(row: ReservationRow, rows: map<Day, Int64>, id: Uuid)
    requires RecordSound(row, rows)
    ensures var b := Stored(row, rows, id);
            && |b.nights| == Nights(b.stay)
            && (forall i :: 0 <= i < |b.nights| ==> b.nights[i].date == DaysOf(b.stay)[i])
            && QuoteError(Quote(b.stay, b.nights, b.total)) == None
  {
    TotalOfStored(row, rows);
  }

  lemma {:induction false} SumNightsWithin(rows: map<Day, Int64>, a: Day, b: Day, most: int)
    requires a <= b && 0 <= most
    requires forall d :: d in rows ==> 0 <= rows[d] <= most
    ensures 0 <= SumNights(rows, a, b) <= (b - a) * most
    decreases b - a
  {
    if a == b {
    } else {
      SumNightsWithin(rows, a + 1, b, most);
      assert (b - a) * most == (b - (a + 1)) * most + most;
    }
  }

  /** A stored total is the true sum of its nights if and only if that sum fits an int64 ... */
  lemma StoredTotalIsExactIff(row: ReservationRow, rows: map<Day, Int64>)
    requires RecordSound(row, rows)
    ensures row.totalCents == SumNights(rows, row.checkIn, row.checkOut) <==>
            SumNights(rows, row.checkIn, row.checkOut) < TWO_63
  {
    SumNightsWithin(rows, row.checkIn, row.checkOut, TWO_63);
  }

  predicate NightsInBound(rows: map<Day, Int64>) {
    forall d :: d in rows ==> rows[d] <= MAX_EXACT_PRICE
  }

  /** ... as it does when every night's price is in bound. */
  lemma StoredTotalIsExact(row: ReservationRow, rows: map<Day, Int64>)
    requires RecordSound(row, rows) && NightsInBound(rows)
    ensures row.totalCents == SumNights(rows, row.checkIn, row.checkOut)
  {
    SumNightsWithin(rows, row.checkIn, row.checkOut, MAX_EXACT_PRICE);
  }

  lemma ReferencesRead(db: Db, reference: string)
    requires RefsAgree(db.reservations, db.refs) && RecordsSound(db.reservations, db.nights)
    ensures ByReference(db, reference).Ok? <==> reference in db.refs
    ensures reference in db.refs ==>
              var id := db.refs[reference];
              id in db.reservations && db.reservations[id].reference == reference && ByReference(db, reference) == ByID(db, id)
  {
    if reference in db.refs {
      StoredReservationsRead(db, db.refs[reference]);
    }
  }

  lemma DraftIsStored(b: Booking, m: map<Day, RateDay>, currency: string)
    requires forall d | b.stay.checkIn <= d < b.stay.checkOut :: d in m && m[d].price.currency == currency
    requires b.nights == NightsOf(m, b.stay.checkIn, b.stay.checkOut) && b.total.currency == currency
    ensures var rows := NightRows(b.nights);
            && (forall d :: d in rows <==> b.stay.checkIn <= d < b.stay.checkOut)
            && Stored(RowOf(b), rows, b.id) == b.(guestCount := Int16(b.guestCount))
  {
    NightRowsOf(m, b.stay.checkIn, b.stay.checkOut);
    assert StoredNights(NightRows(b.nights), currency, b.stay.checkIn, b.stay.checkOut) == b.nights;
  }

  /** Round trip: a reservation just created is read back by its identifier and by its reference as it was drafted
      (the head count in sixteen bits), and rates published later do not change what is read. */
  lemma CreateThenRead(db: Db, input: ReserveInput, rates: Result<seq<RateDay>>, d: Draws, later: map<RateKey, RateRow>)
    requires Consistent(db) && input.key !in db.keys && CanBook(db, input, rates, d)
    requires rates.Ok? ==> RatesSound(rates.value)
    ensures var b := Planned(db.catalog, input, rates, GuestFor(db, input, d), d).value;
            var after := BookedDb(db, input, b, d.event).(rates := later);
            && ByID(after, b.id) == Ok(b.(guestCount := Int16(b.guestCount)))
            && ByReference(after, b.reference) == ByID(after, b.id)
  {
    var guest := GuestFor(db, input, d);
    var b := Planned(db.catalog, input, rates, guest, d).value;
    PlannedFacts(db.catalog, input, rates, guest, d);
    CalculateSucceedsIff(input.stay, rates.value);
    DraftIsStored(b, ByDate(rates.value), b.total.currency);
    BookingKeepsConsistency(db, input, rates, d);
    ReadsAsStored(BookedDb(db, input, b, d.event).(rates := later), b);
  }

  lemma ReadsAsStored(db: Db, b: Booking)
    requires RecordsSound(db.reservations, db.nights)
    requires b.id in db.reservations && db.reservations[b.id] == RowOf(b) && db.nights[b.id] == NightRows(b.nights)
    requires forall d | b.stay.checkIn <= d < b.stay.checkOut :: d in NightRows(b.nights)
    requires b.reference in db.refs && db.refs[b.reference] == b.id
    ensures ByID(db, b.id) == Ok(Stored(RowOf(b), NightRows(b.nights), b.id))
    ensures ByReference(db, b.reference) == ByID(db, b.id)
  {
    StoredReservationsRead(db, b.id);
  }

  // Cancelling keeps the agreements, and its release cannot fail

  /** Every night of a confirmed reservation has a row with something booked, so `Release` never fails for it. */
  lemma ReleaseNeverFails(inventory: Inventory, reservations: Reservations, id: Uuid, stay: Stay)
    requires RowsInBounds(inventory) && CountersAgree(inventory, reservations)
    requires id in reservations && reservations[id].status == Confirmed
    requires stay == Span(reservations[id].checkIn, reservations[id].checkOut)
    ensures CanMove(inventory, reservations[id].room, stay, -1)
  {
    forall d | stay.checkIn <= d < stay.checkOut ensures CanTake(inventory, Slot(reservations[id].room, d), -1) {
      var slot := Slot(reservations[id].room, d);
      assert id in Occupants(reservations, slot);
      assert Occupants(reservations, slot) != {};
      assert |Occupants(reservations, slot)| == BookedAt(inventory, slot);
    }
  }

  lemma CancelKeepsCounters(inventory: Inventory, reservations: Reservations, id: Uuid, stay: Stay, row: ReservationRow)
    requires RowsInBounds(inventory) && CountersAgree(inventory, reservations)
    requires id in reservations && reservations[id].status == Confirmed && row.status == Cancelled
    requires stay == Span(reservations[id].checkIn, reservations[id].checkOut)
    ensures CountersAgree(inventory + MovedRows(inventory, reservations[id].room, DaysOf(stay), -1), reservations[id := row])
  {
    ReleaseNeverFails(inventory, reservations, id, stay);
    var after, room := reservations[id := row], reservations[id].room;
    forall slot: Slot
      ensures |Occupants(after, slot)| == BookedAt(inventory + MovedRows(inventory, room, DaysOf(stay), -1), slot)
    {
      MovedCounters(inventory, room, stay, -1, slot);
      if slot.room == room && Contains(stay, slot.day) {
        assert Occupants(after, slot) == Occupants(reservations, slot) - {id};
        assert id in Occupants(reservations, slot);
      } else {
        assert Occupants(after, slot) == Occupants(reservations, slot);
      }
    }
  }

  /** The number comes after the reservation's own confirmation. */
  ghost predicate Follows(outbox: Outbox, id: Uuid, event: int) {
    forall c :: c in EventsOf(outbox, id, ConfirmedEvent) ==> c < event
  }

  lemma CancelAnnounced(outbox: Outbox, event: int, m: Message, id: Uuid, row: ReservationRow,
                        cancelled: ReservationRow)
    requires ReservationAnnounced(outbox, id, row) && event !in outbox && m.kind == CancelledEvent && m.aggregate == id
    requires Follows(outbox, id, event)
    requires row.status == Confirmed && cancelled.status == Cancelled
    ensures ReservationAnnounced(outbox[event := m], id, cancelled)
  {
    EventAdded(outbox, event, m, id, ConfirmedEvent);
    EventAdded(outbox, event, m, id, CancelledEvent);
    assert EventsOf(outbox, id, CancelledEvent) == {};
  }

  lemma OthersStayAnnounced(outbox: Outbox, event: int, m: Message, id: Uuid, row: ReservationRow)
    requires ReservationAnnounced(outbox, id, row) && event !in outbox && m.aggregate != id
    ensures ReservationAnnounced(outbox[event := m], id, row)
  {
    EventAdded(outbox, event, m, id, ConfirmedEvent);
    EventAdded(outbox, event, m, id, CancelledEvent);
  }

  lemma CancelKeepsEvents(outbox: Outbox, reservations: Reservations, event: int, m: Message, row: ReservationRow)
    requires EventsAgree(outbox, reservations) && event !in outbox
    requires m.kind == CancelledEvent && m.aggregate in reservations
    requires reservations[m.aggregate].status == Confirmed && row.status == Cancelled
    requires row == reservations[m.aggregate].(status := row.status, cancelledAt := row.cancelledAt)
    requires Follows(outbox, m.aggregate, event)
    requires MessageSound(m, reservations)
    ensures EventsAgree(outbox[event := m], reservations[m.aggregate := row])
  {
    var after, rows := outbox[event := m], reservations[m.aggregate := row];
    forall id | id in rows ensures ReservationAnnounced(after, id, rows[id]) {
      assert ReservationAnnounced(outbox, id, reservations[id]);
      if id == m.aggregate {
        CancelAnnounced(outbox, event, m, id, reservations[id], row);
      } else {
        OthersStayAnnounced(outbox, event, m, id, reservations[id]);
      }
    }
    forall e | e in after ensures MessageSound(after[e], rows) {
      if e != event {
        assert MessageSound(outbox[e], reservations);
      }
    }
  }

  lemma CancelKeepsRefs(reservations: Reservations, refs: map<string, Uuid>, id: Uuid, row: ReservationRow)
    requires RefsAgree(reservations, refs) && id in reservations && row.reference == reservations[id].reference
    ensures RefsAgree(reservations[id := row], refs)
  {
  }

  lemma CancelKeepsKeys(keys: map<string, KeyRow>, reservations: Reservations, id: Uuid, row: ReservationRow)
    requires KeysAgree(keys, reservations) && id in reservations
    ensures KeysAgree(keys, reservations[id := row])
  {
  }

  lemma CancelKeepsRecords(reservations: Reservations, nights: map<Uuid, map<Day, Int64>>, id: Uuid, at: Instant)
    requires RecordsSound(reservations, nights) && id in reservations
    ensures RecordsSound(reservations[id := reservations[id].(status := Cancelled, cancelledAt := Some(at))], nights)
  {
    var row := reservations[id].(status := Cancelled, cancelledAt := Some(at));
    assert RecordSound(reservations[id], nights[id]);
    assert RecordSound(row, nights[id]);
  }

  /** Cancelling a confirmed reservation, as read back, keeps every agreement. */
  ghost predicate Cancellable(db: Db, b: Booking, r: CancelResult, event: int) {
    && b.id in db.reservations && b.id in db.nights
    && RecordSound(db.reservations[b.id], db.nights[b.id])
    && b == Stored(db.reservations[b.id], db.nights[b.id], b.id)
    && b.status == Confirmed
    && r.booking == CancelledAt(b, r.cancellation.at)
    && r.cancellation.refund == (if r.cancellation.refundable then b.total else Zero(b.total.currency))
    && event !in db.outbox && Follows(db.outbox, b.id, event)
  }

  lemma CancellingKeepsStock(db: Db, b: Booking, r: CancelResult, event: int)
    requires Consistent(db) && Cancellable(db, b, r, event)
    ensures var after := CancelledDb(db, r, event);
            && RowsInBounds(after.inventory)
            && CountersAgree(after.inventory, after.reservations)
            && RefsAgree(after.reservations, after.refs)
            && RecordsSound(after.reservations, after.nights)
  {
    ReleaseNeverFails(db.inventory, db.reservations, b.id, b.stay);
    MoveKeepsBounds(db.inventory, b.room, b.stay, -1);
    CancelKeepsCounters(db.inventory, db.reservations, b.id, b.stay, CancelledRow(db, r.booking));
    CancelKeepsRefs(db.reservations, db.refs, b.id, CancelledRow(db, r.booking));
    CancelKeepsRecords(db.reservations, db.nights, b.id, r.cancellation.at);
  }

  lemma CancellingKeepsLedger(db: Db, b: Booking, r: CancelResult, event: int)
    requires Consistent(db) && Cancellable(db, b, r, event)
    ensures var after := CancelledDb(db, r, event);
            && KeysAgree(after.keys, after.reservations)
            && EventsAgree(after.outbox, after.reservations)
            && GuestsKnown(after.guests, after.reservations)
            && PlansKnown(after.catalog, after.reservations)
  {
    CancelKeepsKeys(db.keys, db.reservations, b.id, CancelledRow(db, r.booking));
    CancelKeepsEvents(db.outbox, db.reservations, event, CancelledMessage(r.booking, r.cancellation), CancelledRow(db, r.booking));
  }

  /** A committed cancellation keeps every agreement, its event being numbered after the confirmation. */
  lemma CancellingKeepsConsistency(db: Db, reference: string, now: Instant, event: int)
    requires Consistent(db) && CanCancel(db, reference, now, event)
    requires Follows(db.outbox, ByReference(db, reference).value.id, event)
    ensures Consistent(CancelledDb(db, Assess(db.catalog, ByReference(db, reference).value, now).value, event))
  {
    var b := ByReference(db, reference).value;
    var r := Assess(db.catalog, b, now).value;
    ReferencesRead(db, reference);
    StoredReservationsRead(db, b.id);
    assert Cancellable(db, b, r, event);
    CancellingKeepsStock(db, b, r, event);
    CancellingKeepsLedger(db, b, r, event);
  }

  /** In a consistent state a reservation can be cancelled exactly when it exists, is still confirmed, and check-in
      day has not begun: nothing else can go wrong. */
  lemma CanCancelIff(db: Db, reference: string, now: Instant, event: int)
    requires Consistent(db) && event !in db.outbox
    ensures CanCancel(db, reference, now, event) <==>
            && reference in db.refs && db.reservations[db.refs[reference]].status == Confirmed
            && now < db.reservations[db.refs[reference]].checkIn * NANOS_PER_DAY
  {
    ReferencesRead(db, reference);
    if reference in db.refs {
      var b := ByReference(db, reference).value;
      StoredReservationsRead(db, b.id);
      if CancellationError(b, now) == None {
        ReleaseNeverFails(db.inventory, db.reservations, b.id, b.stay);
      }
    }
  }

  // Publishing inventory keeps the agreements

  lemma UpsertKeepsConsistency(db: Db, room: Uuid, from: Day, until: Day, allotment: int)
    requires Consistent(db) && from < until
    requires UpsertError(db.inventory, room, from, until, Int16(allotment)) == None
    ensures Consistent(db.(inventory := db.inventory + UpsertedRows(db.inventory, room, from, until, Int16(allotment))))
  {
    var rows := UpsertedRows(db.inventory, room, from, until, Int16(allotment));
    UpsertErrorIff(db.inventory, room, from, until, Int16(allotment));
    UpsertKeepsCounters(db.inventory, db.reservations, rows, Int16(allotment));
    forall s | s in rows ensures NotOversold(rows[s]) && rows[s].allotment <= MAX_SMALLINT {
      assert s == Slot(room, s.day);
    }
  }

  lemma UpsertKeepsCounters(inventory: Inventory, reservations: Reservations, rows: Inventory, allotment: int)
    requires CountersAgree(inventory, reservations)
    requires forall s :: s in rows ==> rows[s] == UpsertedRow(inventory, s, allotment)
    ensures CountersAgree(inventory + rows, reservations)
  {
    forall slot: Slot ensures |Occupants(reservations, slot)| == BookedAt(inventory + rows, slot) {
      assert |Occupants(reservations, slot)| == BookedAt(inventory, slot);
    }
  }

  // Marking messages keeps the agreements

  ghost predicate Attempted(outbox: Outbox, rows: Outbox) {
    forall e :: e in rows ==>
      && e in outbox && Eligible(outbox[e])
      && (rows[e] == Marked(outbox[e], true) || rows[e] == Marked(outbox[e], false))
  }

  lemma MarkedEvents(outbox: Outbox, rows: Outbox, id: Uuid, kind: EventKind)
    requires Attempted(outbox, rows)
    ensures EventsOf(outbox + rows, id, kind) == EventsOf(outbox, id, kind)
  {
    forall e ensures e in EventsOf(outbox + rows, id, kind) <==> e in EventsOf(outbox, id, kind) {
      if e in rows {
        assert (outbox + rows)[e] == rows[e];
      }
    }
  }

  lemma MarkKeepsEvents(outbox: Outbox, reservations: Reservations, rows: Outbox)
    requires EventsAgree(outbox, reservations) && Attempted(outbox, rows)
    ensures EventsAgree(outbox + rows, reservations)
  {
    var after := outbox + rows;
    forall id | id in reservations ensures ReservationAnnounced(after, id, reservations[id]) {
      MarkedEvents(outbox, rows, id, ConfirmedEvent);
      MarkedEvents(outbox, rows, id, CancelledEvent);
      assert ReservationAnnounced(outbox, id, reservations[id]);
    }
    forall e | e in after ensures MessageSound(after[e], reservations) {
      assert MessageSound(outbox[e], reservations);
    }
  }

  // Refunds

  function RefundOf(outbox: Outbox, e: int): int {
    if e in outbox && outbox[e].kind == CancelledEvent then outbox[e].payload.refundCents else 0
  }

  function TotalOf(reservations: Reservations, id: Uuid): int {
    if id in reservations then reservations[id].totalCents else 0
  }

  /** Each reservation is refunded at most once, with its whole total or nothing, so the refunds announced never
      exceed the totals booked. */
  lemma RefundsWithinTotals(db: Db)
    requires Consistent(db)
    ensures Sum(db.outbox.Keys, (e: int) => RefundOf(db.outbox, e)) <=
            Sum(db.reservations.Keys, (id: Uuid) => TotalOf(db.reservations, id))
  {
    hide Consistent, RefundOf, TotalOf;
    var cancelled := set e | e in db.outbox && db.outbox[e].kind == CancelledEvent;
    var refund: int -> int := e => RefundOf(db.outbox, e);
    var total: Uuid -> int := id => TotalOf(db.reservations, id);
    var owner: int -> Uuid := e => if e in db.outbox then db.outbox[e].aggregate else NIL;
    RefundsCharged(db);
    forall e | e in cancelled ensures owner(e) in db.reservations.Keys && refund(e) <= total(owner(e)) {
      assert owner(e) == db.outbox[e].aggregate;
    }
    forall e | e in db.outbox.Keys && e !in cancelled ensures refund(e) == 0 {
      assert RefundOf(db.outbox, e) == 0;
    }
    forall e, f | e in cancelled && f in cancelled && owner(e) == owner(f) ensures e == f {
      assert db.outbox[e].aggregate == db.outbox[f].aggregate;
    }
    forall id | id in db.reservations.Keys ensures 0 <= total(id) {
      assert 0 <= TotalOf(db.reservations, id);
    }
    SumsCharged(cancelled, db.outbox.Keys, db.reservations.Keys, refund, total, owner);
  }

  /** What is outside `s` is zero, and what is inside is charged to distinct owners. */
  lemma SumsCharged<S(!new), T(!new)>(s: set<S>, all: set<S>, t: set<T>, f: S -> int, g: T -> int, owner: S -> T)
    requires s <= all && forall x :: x in all && x !in s ==> f(x) == 0
    requires forall x :: x in s ==> owner(x) in t && f(x) <= g(owner(x))
    requires forall x, y :: x in s && y in s && owner(x) == owner(y) ==> x == y
    requires forall y :: y in t ==> 0 <= g(y)
    ensures Sum(all, f) <= Sum(t, g)
  {
    SumCharged(s, t, f, g, owner);
    SumOfTheRest(all, s, f);
  }

  lemma RefundsCharged(db: Db)
    requires Consistent(db)
    ensures forall e :: e in db.outbox && db.outbox[e].kind == CancelledEvent ==>
              db.outbox[e].aggregate in db.reservations
              && RefundOf(db.outbox, e) <= TotalOf(db.reservations, db.outbox[e].aggregate)
    ensures forall e, f | e in db.outbox && f in db.outbox && db.outbox[e].kind == db.outbox[f].kind == CancelledEvent
                          && db.outbox[e].aggregate == db.outbox[f].aggregate :: e == f
    ensures forall e :: e in db.outbox && db.outbox[e].kind != CancelledEvent ==> RefundOf(db.outbox, e) == 0
    ensures forall id :: id in db.reservations ==> 0 <= TotalOf(db.reservations, id)
  {
    hide Consistent, EventsAgree, RecordsSound;
    Agreements(db);
    forall e | e in db.outbox
      ensures db.outbox[e].aggregate in db.reservations
      ensures RefundOf(db.outbox, e) <= TotalOf(db.reservations, db.outbox[e].aggregate)
    {
      RefundIsBounded(db, e);
    }
    forall e, f | e in db.outbox && f in db.outbox && db.outbox[e].kind == db.outbox[f].kind == CancelledEvent
                  && db.outbox[e].aggregate == db.outbox[f].aggregate
      ensures e == f
    {
      OneCancelledEvent(db.outbox, db.reservations, e, f);
    }
    forall id | id in db.reservations ensures 0 <= TotalOf(db.reservations, id) {
      TotalIsNonNegative(db, id);
    }
  }

  lemma TotalIsNonNegative(db: Db, id: Uuid)
    requires RecordsSound(db.reservations, db.nights) && id in db.reservations
    ensures 0 <= db.reservations[id].totalCents
  {
    assert RecordSound(db.reservations[id], db.nights[id]);
  }

  lemma RefundIsBounded(db: Db, e: int)
    requires EventsAgree(db.outbox, db.reservations) && RecordsSound(db.reservations, db.nights) && e in db.outbox
    ensures db.outbox[e].aggregate in db.reservations
    ensures RefundOf(db.outbox, e) <= db.reservations[db.outbox[e].aggregate].totalCents
  {
    assert MessageSound(db.outbox[e], db.reservations);
    TotalIsNonNegative(db, db.outbox[e].aggregate);
  }

  lemma OneCancelledEvent(outbox: Outbox, reservations: Reservations, e: int, f: int)
    requires EventsAgree(outbox, reservations)
    requires e in outbox && f in outbox && outbox[e].kind == CancelledEvent && outbox[f].kind == CancelledEvent
    requires outbox[e].aggregate == outbox[f].aggregate
    ensures e == f
  {
    var id := outbox[e].aggregate;
    assert MessageSound(outbox[e], reservations);
    assert ReservationAnnounced(outbox, id, reservations[id]);
    var all := EventsOf(outbox, id, CancelledEvent);
    assert e in all && f in all && |all| <= 1;
    if e != f {
      SubsetSize({e, f}, all);
    }
  }

  lemma {:induction false} SumOfTheRest<S(!new)>(s: set<S>, t: set<S>, f: S -> int)
    requires t <= s && forall x :: x in s && x !in t ==> f(x) == 0
    ensures Sum(s, f) == Sum(t, f)
    decreases |s|
  {
    if s - t == {} {
      assert s == t;
    } else {
      var x := SomeElement(s - t);
      SumPick(s, f, x);
      SumOfTheRest(s - {x}, t, f);
    }
  }
}
