/** A commit is one atomic transaction on the tables as they are at that moment. */
module Commits {
  import opened Results
  import opened Words
  import opened Stays
  import opened Bookings
  import opened Tables
  import opened Transactions
  import opened Stock
  import opened Effects
  import opened Consistency
  import opened Interleaving
  import opened Invariants
  import opened Stability
  import Steps

  /** Every row written is held. */
  ghost predicate AllHeld(tx: Tx) {
    match tx.writes
    case Writes(keys, guests, inventory, reservations, refs, _, outbox) =>
      && (forall k :: k in keys ==> Holds(tx, KeyLock(k)))
      && (forall e :: e in guests ==> Holds(tx, GuestLock(e)))
      && (forall s :: s in inventory ==> Holds(tx, SlotLock(s)))
      && (forall id :: id in reservations ==> Holds(tx, RowLock(id)))
      && (forall r :: r in refs ==> Holds(tx, RefLock(r)))
      && (forall m :: m in outbox ==> Holds(tx, MessageLock(m)))
  }

  lemma OthersUntouched(db: Db, tx: Tx, lock: Lock)
    requires AllHeld(tx) && !Holds(tx, lock)
    ensures SameAt(db, Apply(db, tx.writes), lock)
  {
  }

  // Reservations

  lemma FreshCommit(db: Db, tx: Tx)
    requires tx.fate == Running && tx.stage == Ending && FreshOk(db, tx)
    ensures tx.program.Reserving? && tx.program.input.key !in db.keys
    ensures CanBook(db, tx.program.input, tx.rates, tx.draws)
    ensures Planned(db.catalog, tx.program.input, tx.rates, GuestFor(db, tx.program.input, tx.draws), tx.draws) == Ok(tx.booking.value)
    ensures Apply(db, tx.writes) == BookedDb(db, tx.program.input, tx.booking.value, tx.draws.event)
  {
    var input, b := tx.program.input, tx.booking.value;
    PlannedFacts(db.catalog, input, tx.rates, GuestFor(db, input, tx.draws), tx.draws);
    assert tx.writes == ConfirmWrite(db, input, tx.draws, b);
    FreshApplied(db, input, tx.draws, b);
  }

  lemma FreshApplied(db: Db, input: ReserveInput, d: Draws, b: Booking)
    requires b.guest == GuestFor(db, input, d)
    ensures Apply(db, ConfirmWrite(db, input, d, b)) == BookedDb(db, input, b, d.event)
  {
    assert db.keys + map[input.key := KeyRow(input.hash, Some(b.id))] == db.keys[input.key := KeyRow(input.hash, Some(b.id))];
    assert db.guests + map[input.email := b.guest] == db.guests[input.email := b.guest];
    assert db.reservations + map[b.id := RowOf(b)] == db.reservations[b.id := RowOf(b)];
    assert db.refs + map[b.reference := b.id] == db.refs[b.reference := b.id];
    assert db.nights + map[b.id := NightRows(b.nights)] == db.nights[b.id := NightRows(b.nights)];
    assert db.outbox + map[d.event := ConfirmedMessage(b)] == db.outbox[d.event := ConfirmedMessage(b)];
  }

  lemma FreshHeld(db: Db, tx: Tx)
    requires tx.fate == Running && tx.stage == Ending && FreshOk(db, tx)
    ensures AllHeld(tx)
  {
    var input, d, b := tx.program.input, tx.draws, tx.booking.value;
    PlannedFacts(db.catalog, input, tx.rates, GuestFor(db, input, d), d);
    NightsHeld(tx, b);
    RowsHeld(tx, input, d);
    FreshWritesHeld(db, tx, input, d, b);
  }

  lemma NightsHeld(tx: Tx, b: Booking)
    requires tx.fate == Running && ((tx.program.Reserving? && tx.owned) || tx.program.Cancelling?)
    requires tx.booking == Some(b) && tx.days == DaysOf(b.stay) && tx.got == |tx.days|
    ensures forall s: Slot :: s.room == b.room && s.day in DaysOf(b.stay) ==> Holds(tx, SlotLock(s))
  {
    assert tx.days[..tx.got] == tx.days;
  }

  lemma RowsHeld(tx: Tx, input: ReserveInput, d: Draws)
    requires tx.program == Reserving(input) && tx.owned && tx.fate == Running && tx.stage == Ending && tx.draws == d
    ensures Holds(tx, KeyLock(input.key)) && Holds(tx, GuestLock(input.email)) && Holds(tx, RowLock(d.id))
    ensures Holds(tx, RefLock(d.reference)) && Holds(tx, MessageLock(d.event))
  {
  }

  lemma FreshWritesHeld(db: Db, tx: Tx, input: ReserveInput, d: Draws, b: Booking)
    requires b.id == d.id && b.reference == d.reference && tx.writes == ConfirmWrite(db, input, d, b)
    requires Holds(tx, KeyLock(input.key)) && Holds(tx, GuestLock(input.email)) && Holds(tx, RowLock(d.id))
    requires Holds(tx, RefLock(d.reference)) && Holds(tx, MessageLock(d.event))
    requires forall s: Slot :: s.room == b.room && s.day in DaysOf(b.stay) ==> Holds(tx, SlotLock(s))
    ensures AllHeld(tx)
  {
  }

  lemma FreshEvolves(db: Db, tx: Tx)
    requires tx.fate == Running && tx.stage == Ending && FreshOk(db, tx) && db.nights.Keys == db.reservations.Keys
    ensures Evolves(db, Apply(db, tx.writes))
  {
    FreshCommit(db, tx);
    BookedEvolves(db, tx.program.input, tx.booking.value, tx.draws.event);
  }

  lemma BookedEvolves(db: Db, input: ReserveInput, b: Booking, event: int)
    requires input.key !in db.keys && b.id !in db.reservations && b.reference !in db.refs && event !in db.outbox
    requires input.email in db.guests ==> b.guest == db.guests[input.email]
    requires b.id !in db.nights
    ensures Evolves(db, BookedDb(db, input, b, event))
  {
    hide RowOf, MovedRows, NightRows, ConfirmedMessage;
  }

  lemma ReplayCommit(db: Db, tx: Tx)
    requires tx.fate == Running && tx.stage == Ending && ReplayOk(db, tx)
    ensures Apply(db, tx.writes) == db
    ensures AllHeld(tx)
  {
    NothingApplied(db);
    assert tx.writes == NO_WRITES;
  }

  lemma ReservingEvolves(db: Db, tx: Tx)
    requires tx.program.Reserving? && tx.fate == Running && tx.stage == Ending && (ReplayOk(db, tx) || FreshOk(db, tx))
    requires db.nights.Keys == db.reservations.Keys
    ensures Evolves(db, Apply(db, tx.writes))
  {
    hide FreshOk, ReplayOk, Apply;
    if FreshOk(db, tx) {
      FreshEvolves(db, tx);
    } else {
      ReplayCommit(db, tx);
    }
  }

  lemma NothingApplied(db: Db)
    ensures Apply(db, NO_WRITES) == db
  {
    assert db.keys + map[] == db.keys && db.guests + map[] == db.guests && db.inventory + map[] == db.inventory;
    assert db.reservations + map[] == db.reservations && db.refs + map[] == db.refs;
    assert db.nights + map[] == db.nights && db.outbox + map[] == db.outbox;
  }

  // Cancellations

  lemma ReadNow(db: Db, tx: Tx, b: Booking)
    requires tx.program.Cancelling? && tx.booking == Some(b) && ReadOk(db, tx) && Guarded(db, b, tx.draws.now)
    ensures ByReference(db, tx.program.reference) == Ok(b)
  {
  }

  lemma CancelCommit(db: Db, tx: Tx, b: Booking)
    requires tx.fate == Running && tx.stage == Ending && CancelOk(db, tx) && tx.booking == Some(b)
    ensures tx.program.Cancelling? && ByReference(db, tx.program.reference) == Ok(b)
    ensures CanCancel(db, tx.program.reference, tx.draws.now, tx.draws.event)
    ensures Apply(db, tx.writes) == CancelledDb(db, Assess(db.catalog, b, tx.draws.now).value, tx.draws.event)
  {
    ReadNow(db, tx, b);
    assert tx.writes == CancelWrite(db, b, tx.draws.now, tx.draws.event);
    CancelApplied(db, b, tx.draws.now, tx.draws.event);
  }

  lemma CancelApplied(db: Db, b: Booking, now: Instant, event: int)
    requires b.id in db.reservations && Assess(db.catalog, b, now).Ok?
    ensures Apply(db, CancelWrite(db, b, now, event)) == CancelledDb(db, Assess(db.catalog, b, now).value, event)
  {
    var r := Assess(db.catalog, b, now).value;
    WritesApplied(db, b.id, CancelledRow(db, r.booking), MovedRows(db.inventory, b.room, DaysOf(b.stay), -1), event,
                  CancelledMessage(r.booking, r.cancellation));
  }

  lemma WritesApplied(db: Db, id: Uuid, row: ReservationRow, rows: Inventory, event: int, m: Message)
    ensures Apply(db, NO_WRITES.(reservations := map[id := row], inventory := rows, outbox := map[event := m])) ==
            db.(reservations := db.reservations[id := row], inventory := db.inventory + rows, outbox := db.outbox[event := m])
  {
    NothingApplied(db);
    assert db.reservations + map[id := row] == db.reservations[id := row];
    assert db.outbox + map[event := m] == db.outbox[event := m];
  }

  lemma CancelHeld(db: Db, tx: Tx)
    requires tx.fate == Running && tx.stage == Ending && CancelOk(db, tx)
    ensures AllHeld(tx)
  {
    NightsHeld(tx, tx.booking.value);
    CancelWritesHeld(db, tx, tx.booking.value, tx.draws.now, tx.draws.event);
  }

  lemma CancelWritesHeld(db: Db, tx: Tx, b: Booking, now: Instant, event: int)
    requires tx.program.Cancelling? && tx.fate == Running && tx.stage == Ending
    requires tx.booking == Some(b) && tx.draws.event == event
    requires b.id in db.reservations && Assess(db.catalog, b, now).Ok? && tx.writes == CancelWrite(db, b, now, event)
    requires forall s: Slot :: s.room == b.room && s.day in DaysOf(b.stay) ==> Holds(tx, SlotLock(s))
    ensures AllHeld(tx)
  {
  }

  lemma CancelledEvolves(db: Db, r: CancelResult, event: int)
    requires r.booking.id in db.reservations && event !in db.outbox
    requires db.reservations[r.booking.id].status == Confirmed && r.booking.status == Cancelled
    ensures Evolves(db, CancelledDb(db, r, event))
  {
  }

  lemma CancelEvolves(db: Db, tx: Tx)
    requires tx.fate == Running && tx.stage == Ending && CancelOk(db, tx)
    ensures Evolves(db, Apply(db, tx.writes))
  {
    CancelCommit(db, tx, tx.booking.value);
    CancelledEvolves(db, Assess(db.catalog, tx.booking.value, tx.draws.now).value, tx.draws.event);
  }

  // Publishing inventory

  lemma StockingCommit(db: Db, tx: Tx)
    requires tx.program.Stocking? && tx.fate == Running && tx.stage == Ending && StockingOk(db, tx)
    ensures var p := tx.program;
            && p.from < p.until && UpsertError(db.inventory, p.room, p.from, p.until, Int16(p.allotment)) == None
            && Apply(db, tx.writes) ==
               db.(inventory := db.inventory + UpsertedRows(db.inventory, p.room, p.from, p.until, Int16(p.allotment)))
  {
    var p := tx.program;
    Steps.UpsertedMeans(db.inventory, p.room, p.from, p.until, Int16(p.allotment), tx.writes.inventory);
    InventoryApplied(db, tx.writes.inventory);
  }

  lemma InventoryApplied(db: Db, rows: Inventory)
    ensures Apply(db, NO_WRITES.(inventory := rows)) == db.(inventory := db.inventory + rows)
  {
    NothingApplied(db);
  }

  lemma OutboxApplied(db: Db, rows: Outbox)
    ensures Apply(db, NO_WRITES.(outbox := rows)) == db.(outbox := db.outbox + rows)
  {
    NothingApplied(db);
  }

  lemma StockingEvolves(db: Db, tx: Tx)
    requires tx.program.Stocking? && tx.fate == Running && tx.stage == Ending && StockingOk(db, tx)
    ensures Evolves(db, Apply(db, tx.writes))
  {
    InventoryApplied(db, tx.writes.inventory);
  }

  // Every kind of transaction

  lemma EndHeld(db: Db, tx: Tx)
    requires tx.fate == Running && tx.stage == Ending && TxOk(db, tx)
    ensures AllHeld(tx)
  {
    match tx.program
    case Reserving(_) =>
      if FreshOk(db, tx) {
        FreshHeld(db, tx);
      }
    case Cancelling(_) => CancelHeld(db, tx);
    case Stocking(_, _, _, _) =>
    case Dispatching(_) => assert forall m :: m in tx.picked[..tx.got] ==> m in tx.picked;
  }

  lemma EndEvolves(db: Db, tx: Tx)
    requires tx.fate == Running && tx.stage == Ending && TxOk(db, tx) && db.nights.Keys == db.reservations.Keys
    ensures Evolves(db, Apply(db, tx.writes))
  {
    match tx.program
    case Reserving(_) => ReservingEvolves(db, tx);
    case Cancelling(_) => CancelEvolves(db, tx);
    case Stocking(_, _, _, _) => StockingEvolves(db, tx);
    case Dispatching(_) => DispatchEvolves(db, tx);
  }

  lemma DispatchCommit(db: Db, tx: Tx)
    requires tx.program.Dispatching? && DispatchOk(db, tx)
    ensures Apply(db, tx.writes) == db.(outbox := db.outbox + tx.writes.outbox)
    ensures Attempted(db.outbox, tx.writes.outbox)
  {
    OutboxApplied(db, tx.writes.outbox);
  }

  lemma DispatchEvolves(db: Db, tx: Tx)
    requires tx.program.Dispatching? && DispatchOk(db, tx)
    ensures Evolves(db, Apply(db, tx.writes))
  {
    DispatchCommit(db, tx);
    MarkingEvolves(db, tx.writes.outbox);
  }

  lemma MarkingEvolves(db: Db, rows: Outbox)
    requires Attempted(db.outbox, rows)
    ensures Evolves(db, db.(outbox := db.outbox + rows))
  {
    assert forall m :: m in rows ==> m in db.outbox;
  }

  lemma ReservingKeepsConsistency(db: Db, tx: Tx)
    requires tx.program.Reserving? && tx.fate == Running && tx.stage == Ending && (ReplayOk(db, tx) || FreshOk(db, tx))
    requires Consistent(db)
    ensures Consistent(Apply(db, tx.writes))
  {
    hide Apply, BookedDb, CanBook, Planned, Consistent, ReplayOk;
    if FreshOk(db, tx) {
      FreshCommit(db, tx);
      BookingKeepsConsistency(db, tx.program.input, tx.rates, tx.draws);
    } else {
      ReplayCommit(db, tx);
    }
  }

  lemma CancelKeepsConsistency(db: Db, tx: Tx, b: Booking)
    requires tx.fate == Running && tx.stage == Ending && CancelOk(db, tx) && tx.booking == Some(b) && Consistent(db)
    ensures Consistent(Apply(db, tx.writes))
  {
    hide Apply, CancelledDb, CanCancel, Consistent;
    CancelCommit(db, tx, b);
    CancellingKeepsConsistency(db, tx.program.reference, tx.draws.now, tx.draws.event);
  }

  lemma StockingKeepsConsistency(db: Db, tx: Tx)
    requires tx.program.Stocking? && tx.fate == Running && tx.stage == Ending && StockingOk(db, tx) && Consistent(db)
    ensures Consistent(Apply(db, tx.writes))
  {
    hide Apply, UpsertedRows, UpsertError, Consistent;
    var p := tx.program;
    StockingCommit(db, tx);
    UpsertKeepsConsistency(db, p.room, p.from, p.until, p.allotment);
  }

  lemma DispatchKeepsConsistency(db: Db, tx: Tx)
    requires tx.program.Dispatching? && DispatchOk(db, tx) && Consistent(db)
    ensures Consistent(Apply(db, tx.writes))
  {
    hide Apply, EventsAgree;
    DispatchCommit(db, tx);
    MarkKeepsEvents(db.outbox, db.reservations, tx.writes.outbox);
  }

  /** Every commit leaves the tables in agreement. */
  lemma EndConsistent(db: Db, tx: Tx)
    requires tx.fate == Running && tx.stage == Ending && TxOk(db, tx) && Consistent(db)
    ensures Consistent(Apply(db, tx.writes))
  {
    hide Apply, Consistent, ReplayOk, FreshOk, StockingOk, DispatchOk;
    match tx.program
    case Reserving(_) => ReservingKeepsConsistency(db, tx);
    case Cancelling(_) => CancelKeepsConsistency(db, tx, tx.booking.value);
    case Stocking(_, _, _, _) => StockingKeepsConsistency(db, tx);
    case Dispatching(_) => DispatchKeepsConsistency(db, tx);
  }
}
