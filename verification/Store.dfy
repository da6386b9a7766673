/** The database as an object: the tables are fields, and the repositories change them in place.

    Every method is proved against the function that specifies its statement, on the tables before. */
module Store {
  import opened Results
  import opened Words
  import opened Collections
  import opened Calendar
  import opened Stays
  import opened Moneys
  import opened Pricing
  import opened Bookings
  import opened Tables
  import opened Transactions
  import opened Stock
  import opened Consistency
  import opened Invariants
  import Steps

  class Database {
    const catalog: Catalog
    var rates: map<RateKey, RateRow>
    var inventory: map<Slot, InventoryRow>
    var guests: map<string, Uuid>
    var reservations: map<Uuid, ReservationRow>
    var refs: map<string, Uuid>
    var nights: map<Uuid, map<Day, Int64>>
    var keys: map<string, KeyRow>
    var outbox: map<int, Message>

    /** The tables as they were when the open transaction began. */
    var begun: Option<Db>

    function Value(): Db
      reads this
    {
      Db(catalog, rates, inventory, guests, reservations, refs, nights, keys, outbox)
    }

    constructor (db: Db)
      ensures Value() == db && begun == None
    {
      catalog, rates, inventory, guests := db.catalog, db.rates, db.inventory, db.guests;
      reservations, refs, nights, keys, outbox := db.reservations, db.refs, db.nights, db.keys, db.outbox;
      begun := None;
    }

    // Transactions

    /** A transaction already open is joined. */
    method Begin() returns (joined: bool)
      modifies this
      ensures Value() == old(Value()) && joined == old(begun).Some?
      ensures begun == if joined then old(begun) else Some(old(Value()))
    {
      joined := begun.Some?;
      if !joined {
        begun := Some(Value());
      }
    }

    /** Only the transaction that began commits, or rolls back to where it began. */
    method End(joined: bool, ok: bool)
      requires begun.Some? && (!joined ==> begun.value.catalog == catalog)
      modifies this
      ensures begun == if joined then old(begun) else None
      ensures Value() == if joined || ok then old(Value()) else old(begun).value
    {
      if !joined {
        if !ok {
          var b := begun.value;
          rates, inventory, guests, reservations := b.rates, b.inventory, b.guests, b.reservations;
          refs, nights, keys, outbox := b.refs, b.nights, b.keys, b.outbox;
        }
        begun := None;
      }
    }

    // Idempotency keys

    method Claim(key: string, hash: string) returns (claim: Claim)
      modifies this`keys
      ensures (claim, Value()) == ClaimKey(old(Value()), key, hash)
    {
      var affected := 0;
      if key !in keys {
        keys := keys[key := KeyRow(hash, None)];
        affected := 1;
      }
      if affected == 1 {
        return Tables.Claim.Claim(true, hash, None);
      }
      if key !in keys {
        return Tables.Claim.Claim(true, hash, None);
      }
      return Tables.Claim.Claim(false, keys[key].hash, keys[key].reservation);
    }

    method Record(key: string, id: Uuid) returns (r: Result<()>)
      modifies this`keys
      ensures Outcome(r, Value()) == RecordKey(old(Value()), key, id)
    {
      var affected := 0;
      if key in keys {
        keys := keys[key := keys[key].(reservation := Some(id))];
        affected := 1;
      }
      if affected == 0 {
        return Err(KeyLost);
      }
      return Ok(());
    }

    // Guests

    method Greet(email: string, id: Uuid) returns (stored: Uuid)
      modifies this`guests
      ensures (stored, Value()) == UpsertGuest(old(Value()), email, id)
    {
      stored := id;
      if email in guests {
        stored := guests[email];
      }
      guests := guests[email := stored];
    }

    // Inventory

    /** The days of the stay that have a row, in order of date. */
    method LockRows(room: Uuid, stay: Stay) returns (days: seq<Day>)
      ensures days == RowDays(inventory, room, stay.checkIn, stay.checkOut)
    {
      days := [];
      for d := stay.checkIn to stay.checkOut
        invariant StrictlyAscending(days) && forall i :: 0 <= i < |days| ==> days[i] < d
        invariant forall x :: x in days <==> Slot(room, x) in inventory && stay.checkIn <= x < d
      {
        if Slot(room, d) in inventory {
          days := days + [d];
        }
      }
      AscendingUnique(days, RowDays(inventory, room, stay.checkIn, stay.checkOut));
    }

    method Allotments(room: Uuid, stay: Stay) returns (rows: seq<Inventories.Allotment>)
      ensures rows == ReadAllotments(Value(), room, stay.checkIn, stay.checkOut)
    {
      hide AllotmentOf;
      var days := LockRows(room, stay);
      rows := [];
      for i := 0 to |days|
        invariant rows == Tables.Allotments(inventory, room, days[..i])
      {
        assert days[i] in days;
        assert days[..i + 1] == days[..i] + [days[i]];
        rows := rows + [AllotmentOf(inventory, room, days[i])];
      }
      assert days[..|days|] == days;
    }

    /** `move`: the rows are updated one by one, and counted only afterwards. A row that breaks a constraint undoes the
        statement; a wrong count does not. */
    method Move(room: Uuid, stay: Stay, delta: int) returns (r: Result<()>)
      modifies this`inventory
      ensures Outcome(r, Value()) == Tables.Move(old(Value()), room, stay, delta)
    {
      hide MovedRows, MoveError, RowDays;
      var change, affected, start := Int16(delta), 0, inventory;
      var locked := LockRows(room, stay);
      NothingMovedYet(start, room, locked, change);
      for i := 0 to |locked|
        invariant affected == i
        invariant inventory == start + MovedRows(start, room, locked[..i], change)
        invariant MoveError(start, room, locked[i..], change) == MoveError(start, room, locked, change)
      {
        var slot := Slot(room, locked[i]);
        assert locked[i] in locked;
        NotMovedYet(start, room, locked, i, change);
        var row := inventory[slot];
        if !IsSmallint(row.booked + change) {
          inventory := start;
          return Err(DatabaseError);
        }
        if !NotOversold(row.(booked := row.booked + change)) {
          inventory := start;
          return Err(SoldOut);
        }
        inventory := inventory[slot := row.(booked := row.booked + change)];
        affected := affected + 1;
      }
      assert locked[..|locked|] == locked;
      if affected != Nights(stay) {
        return Err(NoInventory);
      }
      return Ok(());
    }

    /** A range without days is a statement without rows. */
    method UpsertAllotment(room: Uuid, from: Day, until: Day, allotment: int) returns (r: Result<()>)
      modifies this`inventory
      ensures Outcome(r, Value()) == Tables.UpsertAllotment(old(Value()), room, from, until, allotment)
    {
      hide UpsertedRows, UpsertError, NotOversold;
      var most, start := Int16(allotment), inventory;
      NothingUpsertedYet(start, room, from, until, most);
      var d := from;
      while d < until
        invariant from <= d && (d <= until || d == from)
        invariant inventory == start + UpsertedRows(start, room, from, d, most)
        invariant UpsertError(start, room, d, until, most) == UpsertError(start, room, from, until, most)
      {
        NotUpsertedYet(start, room, from, d, until, most, d + 1);
        var slot := Slot(room, d);
        var row := InventoryRow(most, if slot in inventory then inventory[slot].booked else 0);
        if most < 0 {
          inventory := start;
          return Err(DatabaseError);
        }
        if !NotOversold(row) {
          inventory := start;
          return Err(SoldOut);
        }
        inventory := inventory[slot := row];
        d := d + 1;
      }
      NothingLeftToUpsert(start, room, from, d, until, most);
      return Ok(());
    }

    // Rates

    method Rates(plan: Uuid, from: Day, until: Day) returns (r: Result<seq<RateDay>>)
      ensures r == ReadRates(Value(), plan, from, until)
    {
      hide RateWindow;
      var found := FindPlan(catalog.plans, plan);
      if found.Err? || found.value.property !in catalog.currencies {
        return Ok([]);
      }
      var currency := catalog.currencies[found.value.property];
      var rows := Ascending(RateWindow(rates, plan, from, until));
      RowsOfWindow(rates, plan, from, until);
      r := ScanRates(plan, currency, rows);
    }

    method ScanRates(plan: Uuid, currency: string, rows: seq<Day>) returns (r: Result<seq<RateDay>>)
      requires forall d :: d in rows ==> RateKey(plan, d) in rates
      ensures r == RateDays(rates, plan, currency, rows)
    {
      var days := [];
      assert rows[0..] == rows;
      ghost var goal := RateDays(rates, plan, currency, rows);
      NoRatesYet(goal);
      for i := 0 to |rows|
        invariant forall d :: d in rows[i..] ==> RateKey(plan, d) in rates
        invariant RatesAfter(days, RateDays(rates, plan, currency, rows[i..])) == goal
      {
        assert rows[i] in rows && rows[i..][1..] == rows[i + 1..];
        var row := rates[RateKey(plan, rows[i])];
        var price := NewMoney(row.cents, currency);
        if price.Err? {
          return Err(CorruptRate);
        }
        var day := RateDay(rows[i], price.value, row.minStay, row.closedToArrival, row.closedToDeparture);
        OneMoreRate(days, day, RateDays(rates, plan, currency, rows[i + 1..]));
        days := days + [day];
      }
      assert days + [] == days;
      return Ok(days);
    }

    /** The unnested arrays as rows: a date given twice, or a row a check rejects, fails the whole statement. */
    method UpsertRates(plan: Uuid, days: seq<RateDay>) returns (r: Result<()>)
      modifies this`rates
      ensures Outcome(r, Value()) == Tables.UpsertRates(old(Value()), plan, days)
    {
      hide RateRows, Int16;
      var rows: map<RateKey, RateRow> := map[];
      var seen: set<Day> := {};
      assert days[..0] == [];
      NoRows(plan);
      for i := 0 to |days|
        invariant rates == old(rates) && rows == RateRows(plan, days[..i])
        invariant forall d :: d in seen <==> exists j :: 0 <= j < i && days[j].date == d
        invariant forall j, k :: 0 <= j < k < i ==> days[j].date != days[k].date
        invariant forall j :: 0 <= j < i ==> 0 <= days[j].price.cents && 1 <= Int16(days[j].minStay)
      {
        var day := days[i];
        assert day.date in seen ==> exists j :: 0 <= j < i && days[j].date == days[i].date;
        if day.date in seen || day.price.cents < 0 || Int16(day.minStay) < 1 {
          return Err(DatabaseError);
        }
        OneMoreRow(plan, days, i);
        rows := rows[RateKey(plan, day.date) :=
                     RateRow(day.price.cents, Int16(day.minStay), day.closedToArrival, day.closedToDeparture)];
        seen := seen + {day.date};
      }
      assert days[..|days|] == days;
      rates := rates + rows;
      return Ok(());
    }

    // Reservations

    method Create(b: Booking) returns (r: Result<()>)
      modifies this`reservations, this`refs, this`nights
      ensures Outcome(r, Value()) == Tables.Create(old(Value()), b)
    {
      hide RowAccepted, NightRows;
      if !RowAccepted(RowOf(b)) || b.id in reservations {
        return Err(DatabaseError);
      }
      if b.reference in refs {
        return Err(DuplicateReference);
      }
      reservations, refs := reservations[b.id := RowOf(b)], refs[b.reference := b.id];
      r := CreateNights(b.id, b.nights);
    }

    method CreateNights(id: Uuid, slept: seq<Night>) returns (r: Result<()>)
      modifies this`nights
      ensures NightsAccepted(slept) ==> r == Ok(()) && nights == old(nights)[id := NightRows(slept)]
      ensures !NightsAccepted(slept) ==> r == Err(DatabaseError) && nights == old(nights)
    {
      hide NightRows;
      var rows: map<Day, Int64> := map[];
      assert slept[..0] == [];
      NoNights();
      for i := 0 to |slept|
        invariant nights == old(nights) && rows == NightRows(slept[..i])
        invariant forall d :: d in rows <==> exists j :: 0 <= j < i && slept[j].date == d
        invariant forall j, k :: 0 <= j < k < i ==> slept[j].date != slept[k].date
        invariant forall j :: 0 <= j < i ==> 0 <= slept[j].price.cents
      {
        assert slept[i].date in rows ==> exists j :: 0 <= j < i && slept[j].date == slept[i].date;
        if slept[i].date in rows || slept[i].price.cents < 0 {
          return Err(DatabaseError);
        }
        OneMoreNight(slept, i);
        rows := rows[slept[i].date := slept[i].price.cents];
      }
      assert slept[..|slept|] == slept;
      nights := nights[id := rows];
      return Ok(());
    }

    method ByID(id: Uuid) returns (r: Result<Booking>)
      ensures r == Tables.ByID(Value(), id)
    {
      hide NewMoney, StayOfDays, ReadNights;
      if id !in reservations {
        return Err(RecordNotFound);
      }
      var row := reservations[id];
      var stay := StayOfDays(row.checkIn, row.checkOut);
      if stay.Err? {
        return Err(CorruptReservation);
      }
      var total := NewMoney(row.totalCents, row.currency);
      if total.Err? {
        return Err(CorruptReservation);
      }
      var slept := ScanNights(if id in nights then nights[id] else map[], row.currency);
      if slept.Err? {
        return Err(slept.error);
      }
      return Ok(Booking(id, row.reference, row.property, row.room, row.plan, row.guest, stay.value, row.guestCount,
                        row.status, slept.value, total.value, row.createdAt, row.cancelledAt));
    }

    method ScanNights(rows: map<Day, Int64>, currency: string) returns (r: Result<seq<Night>>)
      ensures r == ReadNights(rows, currency, Ascending(rows.Keys))
    {
      hide ReadNights, NightsAfter, NewMoney;
      var slept, days := [], Ascending(rows.Keys);
      NoNightsYet(rows, currency, days);
      for i := 0 to |days|
        invariant forall j :: 0 <= j < |days| ==> days[j] in rows
        invariant NightsAfter(slept, rows, currency, days, i) == ReadNights(rows, currency, days)
      {
        OneMoreNightRead(slept, rows, currency, days, i);
        var price := NewMoney(rows[days[i]], currency);
        if price.Err? {
          return Err(CorruptReservation);
        }
        slept := slept + [Night(days[i], price.value)];
      }
      NoNightLeft(slept, rows, currency, days);
      return Ok(slept);
    }

    method ByReference(reference: string) returns (r: Result<Booking>)
      ensures r == Tables.ByReference(Value(), reference)
    {
      if reference !in refs {
        return Err(RecordNotFound);
      }
      r := ByID(refs[reference]);
    }

    /** The update qualifies only while the stored status is still confirmed. */
    method Cancel(b: Booking) returns (r: Result<()>)
      modifies this`reservations
      ensures Outcome(r, Value()) == CancelRow(old(Value()), b)
    {
      var affected := 0;
      if b.id in reservations && reservations[b.id].status == Confirmed {
        var row := reservations[b.id].(status := b.status, cancelledAt := b.cancelledAt);
        if !RowAccepted(row) {
          return Err(DatabaseError);
        }
        reservations := reservations[b.id := row];
        affected := 1;
      }
      if affected == 0 {
        return Err(AlreadyCancelled);
      }
      return Ok(());
    }

    // Outbox

    method Publish(event: int, m: Message) returns (r: Result<()>)
      modifies this`outbox
      ensures Outcome(r, Value()) == Tables.Publish(old(Value()), event, m)
    {
      if event in outbox {
        return Err(DatabaseError);
      }
      outbox := outbox[event := m];
      return Ok(());
    }

    /** Claim a batch, send each message, and mark it with the outcome: `ok` tells how each send ends. */
    method Dispatch(batch: nat, ok: int -> bool) returns (sent: nat)
      modifies this`outbox
      ensures Value() == DispatchTx(old(Value()), batch, ok)
      ensures sent == Successes(Candidates(old(outbox), batch, {}), ok)
    {
      hide Candidates, MarkedRows, Eligible;
      ghost var start := outbox;
      var messages := Candidates(outbox, batch, {});
      NothingMarkedYet(start, messages, ok);
      ClaimedAreStored(start, batch);
      sent := 0;
      for i := 0 to |messages|
        invariant outbox == start + MarkedRows(start, messages[..i], ok)
        invariant sent == Successes(messages[..i], ok)
      {
        var m := messages[i];
        NotMarkedYet(start, messages, ok, i);
        if ok(m) {
          outbox := outbox[m := Marked(outbox[m], true)];
          sent := sent + 1;
        } else {
          outbox := outbox[m := Marked(outbox[m], false)];
        }
      }
      assert messages[..|messages|] == messages;
    }
  }

  lemma NothingMovedYet(start: Inventory, room: Uuid, days: seq<Day>, change: int)
    ensures start + MovedRows(start, room, days[..0], change) == start
    ensures MoveError(start, room, days[0..], change) == MoveError(start, room, days, change)
    ensures MoveError(start, room, days[|days|..], change) == None
  {
    assert days[0..] == days;
    assert MovedRows(start, room, days[..0], change) == map[];
  }

  lemma NotMovedYet(start: Inventory, room: Uuid, days: seq<Day>, i: nat, change: int)
    requires StrictlyAscending(days) && i < |days| && Slot(room, days[i]) in start
    ensures var now := start + MovedRows(start, room, days[..i], change);
            && Slot(room, days[i]) in now && now[Slot(room, days[i])] == start[Slot(room, days[i])]
            && now[Slot(room, days[i]) := start[Slot(room, days[i])].(booked := start[Slot(room, days[i])].booked + change)] ==
               start + MovedRows(start, room, days[..i + 1], change)
    ensures MoveError(start, room, days[i..], change) ==
            var row := start[Slot(room, days[i])];
            if !IsSmallint(row.booked + change) then Some(DatabaseError)
            else if !NotOversold(row.(booked := row.booked + change)) then Some(SoldOut)
            else MoveError(start, room, days[i + 1..], change)
  {
    assert days[..i + 1] == days[..i] + [days[i]];
    assert days[i..][1..] == days[i + 1..];
    assert days[i] !in days[..i];
  }

  lemma NothingUpsertedYet(start: Inventory, room: Uuid, from: Day, until: Day, most: int)
    ensures start + UpsertedRows(start, room, from, from, most) == start
    ensures UpsertError(start, room, until, until, most) == None
  {
  }

  lemma NothingLeftToUpsert(start: Inventory, room: Uuid, from: Day, d: Day, until: Day, most: int)
    requires until <= d && (d == until || d == from)
    ensures UpsertedRows(start, room, from, d, most) == UpsertedRows(start, room, from, until, most)
    ensures UpsertError(start, room, d, until, most) == None
  {
  }

  lemma NotUpsertedYet(start: Inventory, room: Uuid, from: Day, d: Day, until: Day, most: int, next: Day)
    requires from <= d < until && next == d + 1
    ensures var now, slot := start + UpsertedRows(start, room, from, d, most), Slot(room, d);
            && UpsertedRow(start, slot, most) == InventoryRow(most, if slot in now then now[slot].booked else 0)
            && now[slot := UpsertedRow(start, slot, most)] == start + UpsertedRows(start, room, from, next, most)
    ensures UpsertError(start, room, d, until, most) ==
            if most < 0 then Some(DatabaseError)
            else if !NotOversold(UpsertedRow(start, Slot(room, d), most)) then Some(SoldOut)
            else UpsertError(start, room, next, until, most)
  {
    hide NotOversold, UpsertError, UpsertedRow, UpsertedRows;
    UpsertErrorAt(start, room, d, until, most, next);
    OneMoreUpserted(start, room, from, d, most, next);
    UpsertedAsNow(start, room, from, d, most);
  }

  lemma UpsertedAsNow(start: Inventory, room: Uuid, from: Day, d: Day, most: int)
    requires from <= d
    ensures var now, slot := start + UpsertedRows(start, room, from, d, most), Slot(room, d);
            UpsertedRow(start, slot, most) == InventoryRow(most, if slot in now then now[slot].booked else 0)
  {
  }

  lemma UpsertErrorAt(start: Inventory, room: Uuid, d: Day, until: Day, most: int, next: Day)
    requires d < until && next == d + 1
    ensures UpsertError(start, room, d, until, most) ==
            if most < 0 then Some(DatabaseError)
            else if !NotOversold(UpsertedRow(start, Slot(room, d), most)) then Some(SoldOut)
            else UpsertError(start, room, next, until, most)
  {
  }

  lemma OneMoreUpserted(start: Inventory, room: Uuid, from: Day, d: Day, most: int, next: Day)
    requires from <= d && next == d + 1
    ensures var slot := Slot(room, d);
            UpsertedRows(start, room, from, d, most)[slot := UpsertedRow(start, slot, most)] ==
            UpsertedRows(start, room, from, next, most)
  {
    hide UpsertedRow;
    var slot := Slot(room, d);
    var rows, more := UpsertedRows(start, room, from, d, most), UpsertedRows(start, room, from, next, most);
    forall s ensures s in more <==> s in rows || s == slot {
      assert s.room == room && s.day == d <==> s == slot;
    }
  }

  lemma RowsOfWindow(rates: map<RateKey, RateRow>, plan: Uuid, from: Day, until: Day)
    ensures forall d :: d in Ascending(RateWindow(rates, plan, from, until)) ==> RateKey(plan, d) in rates
  {
    forall d | d in RateWindow(rates, plan, from, until) ensures RateKey(plan, d) in rates {
      var k :| k in rates && k.plan == plan && k.day == d;
      assert k == RateKey(plan, d);
    }
  }

  function RatesAfter(days: seq<RateDay>, rest: Result<seq<RateDay>>): Result<seq<RateDay>> {
    match rest
    case Err(e) => Err(e)
    case Ok(more) => Ok(days + more)
  }

  lemma NoRatesYet(rest: Result<seq<RateDay>>)
    ensures RatesAfter([], rest) == rest
  {
    if rest.Ok? {
      assert [] + rest.value == rest.value;
    }
  }

  lemma OneMoreRate(days: seq<RateDay>, day: RateDay, rest: Result<seq<RateDay>>)
    ensures rest.Ok? ==> RatesAfter(days + [day], rest) == Ok(days + ([day] + rest.value))
  {
    if rest.Ok? {
      assert days + [day] + rest.value == days + ([day] + rest.value);
    }
  }

  lemma NoRows(plan: Uuid)
    ensures RateRows(plan, []) == map[]
  {
  }

  lemma OneMoreRow(plan: Uuid, days: seq<RateDay>, i: nat)
    requires i < |days|
    ensures RateRows(plan, days[..i + 1]) ==
            RateRows(plan, days[..i])[RateKey(plan, days[i].date) :=
              RateRow(days[i].price.cents, Int16(days[i].minStay), days[i].closedToArrival, days[i].closedToDeparture)]
  {
    assert days[..i + 1][..i] == days[..i];
  }

  lemma NoNights()
    ensures NightRows([]) == map[]
  {
  }

  lemma OneMoreNight(slept: seq<Night>, i: nat)
    requires i < |slept|
    ensures NightRows(slept[..i + 1]) == NightRows(slept[..i])[slept[i].date := slept[i].price.cents]
  {
    assert slept[..i + 1][..i] == slept[..i];
  }

  /** The nights read so far, followed by the rest. */
  function NightsAfter(slept: seq<Night>, rows: map<Day, Int64>, currency: string, days: seq<Day>,
                       i: nat): Result<seq<Night>>
    requires i <= |days| && forall j :: 0 <= j < |days| ==> days[j] in rows
  {
    var more :- ReadNights(rows, currency, days[i..]);
    Ok(slept + more)
  }

  lemma NoNightsYet(rows: map<Day, Int64>, currency: string, days: seq<Day>)
    requires forall j :: 0 <= j < |days| ==> days[j] in rows
    ensures NightsAfter([], rows, currency, days, 0) == ReadNights(rows, currency, days)
  {
    hide ReadNights;
    assert days[0..] == days;
    var all := ReadNights(rows, currency, days);
    assert all.Ok? ==> [] + all.value == all.value;
  }

  lemma OneMoreNightRead(slept: seq<Night>, rows: map<Day, Int64>, currency: string, days: seq<Day>, i: nat)
    requires i < |days| && forall j :: 0 <= j < |days| ==> days[j] in rows
    ensures NightsAfter(slept, rows, currency, days, i) ==
            match NewMoney(rows[days[i]], currency)
            case Err(_) => Err(CorruptReservation)
            case Ok(price) => NightsAfter(slept + [Night(days[i], price)], rows, currency, days, i + 1)
  {
    hide NewMoney;
    assert days[i..][1..] == days[i + 1..];
    var price, rest := NewMoney(rows[days[i]], currency), ReadNights(rows, currency, days[i + 1..]);
    if price.Ok? && rest.Ok? {
      var night := Night(days[i], price.value);
      assert slept + [night] + rest.value == slept + ([night] + rest.value);
    }
  }

  lemma NoNightLeft(slept: seq<Night>, rows: map<Day, Int64>, currency: string, days: seq<Day>)
    requires forall j :: 0 <= j < |days| ==> days[j] in rows
    ensures NightsAfter(slept, rows, currency, days, |days|) == Ok(slept)
  {
    assert slept + [] == slept;
  }

  /** How many of the sends succeed. */
  function Successes(ids: seq<int>, ok: int -> bool): (n: nat)
    ensures n <= |ids|
    ensures n == |ids| <==> forall i :: 0 <= i < |ids| ==> ok(ids[i])
  {
    if ids == [] then 0 else
      Successes(ids[..|ids| - 1], ok) + (if ok(ids[|ids| - 1]) then 1 else 0)
  }

  function SentOf(ids: seq<int>, ok: int -> bool): set<int> {
    set m | m in ids && ok(m)
  }

  lemma OneMoreSent(init: seq<int>, last: int, ok: int -> bool)
    requires last !in init
    ensures |SentOf(init + [last], ok)| == |SentOf(init, ok)| + (if ok(last) then 1 else 0)
  {
    var before, after := SentOf(init, ok), SentOf(init + [last], ok);
    if ok(last) {
      assert after == before + {last};
    } else {
      assert after == before;
    }
  }

  /** Of messages claimed once each, the number counted is that of those sent with success. */
  lemma {:induction false} SuccessesCount(ids: seq<int>, ok: int -> bool)
    requires Distinct(ids)
    ensures Successes(ids, ok) == |SentOf(ids, ok)|
    decreases |ids|
  {
    hide SentOf;
    if ids == [] {
      NothingSent(ok);
    } else {
      var init, last := ids[..|ids| - 1], ids[|ids| - 1];
      SuccessesCount(init, ok);
      assert ids == init + [last];
      OneMoreSent(init, last, ok);
    }
  }

  lemma NothingSent(ok: int -> bool)
    ensures SentOf([], ok) == {}
  {
  }

  lemma ClaimedAreStored(outbox: Outbox, batch: nat)
    ensures var ids := Candidates(outbox, batch, {});
            Distinct(ids) && |ids| <= batch && forall m :: m in ids ==> m in outbox
  {
    Steps.CandidatesAre(outbox, batch, {});
  }

  lemma NothingMarkedYet(outbox: Outbox, ids: seq<int>, ok: int -> bool)
    ensures outbox + MarkedRows(outbox, ids[..0], ok) == outbox
    ensures Successes(ids[..0], ok) == 0
  {
    assert MarkedRows(outbox, ids[..0], ok) == map[];
  }

  lemma NotMarkedYet(outbox: Outbox, ids: seq<int>, ok: int -> bool, i: nat)
    requires Distinct(ids) && i < |ids| && ids[i] in outbox
    ensures var now := outbox + MarkedRows(outbox, ids[..i], ok);
            && ids[i] in now && now[ids[i]] == outbox[ids[i]]
            && now[ids[i] := Marked(outbox[ids[i]], ok(ids[i]))] == outbox + MarkedRows(outbox, ids[..i + 1], ok)
    ensures Successes(ids[..i + 1], ok) == Successes(ids[..i], ok) + (if ok(ids[i]) then 1 else 0)
  {
    hide Marked;
    assert ids[..i + 1] == ids[..i] + [ids[i]];
    assert ids[..i + 1][..i] == ids[..i];
    assert ids[i] !in ids[..i];
  }
}
