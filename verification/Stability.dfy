/** Another transaction's commit leaves what is true of a running transaction true, because it cannot write a row the
    running one holds, and whatever else it writes only moves forward. */
module Stability {
  import opened Results
  import opened Words
  import opened Collections
  import opened Calendar
  import opened Stays
  import opened Bookings
  import opened Tables
  import opened Stock
  import opened Effects
  import opened Consistency
  import opened Interleaving
  import opened Invariants

  /** The row a lock stands for, or its absence, is the same in both. */
  ghost predicate SameAt(db: Db, after: Db, lock: Lock) {
    match lock
    case KeyLock(k) => (k in db.keys <==> k in after.keys) && (k in db.keys ==> db.keys[k] == after.keys[k])
    case GuestLock(e) => (e in db.guests <==> e in after.guests) && (e in db.guests ==> db.guests[e] == after.guests[e])
    case RowLock(id) =>
      && (id in db.reservations <==> id in after.reservations)
      && (id in db.reservations ==> db.reservations[id] == after.reservations[id])
    case RefLock(r) => (r in db.refs <==> r in after.refs) && (r in db.refs ==> db.refs[r] == after.refs[r])
    case SlotLock(s) =>
      && (s in db.inventory <==> s in after.inventory)
      && (s in db.inventory ==> db.inventory[s] == after.inventory[s])
    case MessageLock(m) => (m in db.outbox <==> m in after.outbox) && (m in db.outbox ==> db.outbox[m] == after.outbox[m])
  }

  ghost predicate Untouched(db: Db, after: Db, tx: Tx) {
    forall lock :: Holds(tx, lock) ==> SameAt(db, after, lock)
  }

  /** A reservation row only ever goes from confirmed to cancelled. */
  ghost predicate RowEvolves(row: ReservationRow, after: ReservationRow) {
    || after == row
    || (&& row.status == Confirmed && after.status == Cancelled
        && after == row.(status := after.status, cancelledAt := after.cancelledAt))
  }

  /** An event keeps what it says; attempts only grow, and once published it never changes again. */
  predicate MessageEvolves(m: Message, after: Message) {
    && after.aggregate == m.aggregate && after.kind == m.kind && after.payload == m.payload
    && m.attempts <= after.attempts
    && (m.published ==> after == m)
  }

  /** No row is ever deleted; keys, guests, references and nights never change once committed. */
  ghost predicate Evolves(db: Db, after: Db) {
    match after
    case Db(catalog, _, inventory, guests, reservations, refs, nights, keys, outbox) =>
      && catalog == db.catalog
      && (forall k :: k in db.keys ==> k in keys && keys[k] == db.keys[k])
      && (forall e :: e in db.guests ==> e in guests && guests[e] == db.guests[e])
      && (forall s :: s in db.inventory ==> s in inventory)
      && (forall id :: id in db.reservations ==> id in reservations && RowEvolves(db.reservations[id], reservations[id]))
      && (forall r :: r in db.refs ==> r in refs && refs[r] == db.refs[r])
      && (forall id :: id in db.nights ==> id in nights && nights[id] == db.nights[id])
      && (forall m :: m in db.outbox ==> m in outbox && MessageEvolves(db.outbox[m], outbox[m]))
  }

  lemma EvolvesTwice(a: Db, b: Db, c: Db)
    requires Evolves(a, b) && Evolves(b, c)
    ensures Evolves(a, c)
  {
  }

  // Pieces

  lemma MovedStays(inventory: Inventory, after: Inventory, b: Booking, days: seq<Day>, got: nat, delta: int)
    requires Moved(inventory, b, days, got, delta)
    requires forall d | b.stay.checkIn <= d < b.stay.checkOut ::
               Slot(b.room, d) in after && (Slot(b.room, d) in inventory ==> after[Slot(b.room, d)] == inventory[Slot(b.room, d)])
    ensures Moved(after, b, days, got, delta)
    ensures MovedRows(after, b.room, DaysOf(b.stay), delta) == MovedRows(inventory, b.room, DaysOf(b.stay), delta)
  {
    forall d | b.stay.checkIn <= d < b.stay.checkOut ensures CanTake(after, Slot(b.room, d), delta) {
      assert CanTake(inventory, Slot(b.room, d), delta);
    }
    forall s: Slot | s.room == b.room && s.day in DaysOf(b.stay) ensures s in inventory && s in after && after[s] == inventory[s] {
      assert CanTake(inventory, Slot(b.room, s.day), delta);
    }
  }

  /** The rows of the stay are held once they are all locked. */
  lemma NightsAreSame(db: Db, after: Db, tx: Tx, delta: int)
    requires Untouched(db, after, tx) && tx.fate == Running
    requires (tx.program.Reserving? && tx.owned) || tx.program.Cancelling?
    requires tx.booking.Some? && Moved(db.inventory, tx.booking.value, tx.days, tx.got, delta)
    ensures Moved(after.inventory, tx.booking.value, tx.days, tx.got, delta)
    ensures MovedRows(after.inventory, tx.booking.value.room, DaysOf(tx.booking.value.stay), delta) ==
            MovedRows(db.inventory, tx.booking.value.room, DaysOf(tx.booking.value.stay), delta)
  {
    var b := tx.booking.value;
    forall d | b.stay.checkIn <= d < b.stay.checkOut
      ensures Slot(b.room, d) in after.inventory && after.inventory[Slot(b.room, d)] == db.inventory[Slot(b.room, d)]
    {
      assert CanTake(db.inventory, Slot(b.room, d), delta);
      assert tx.days[..tx.got] == tx.days;
      assert d in tx.days;
      assert Holds(tx, SlotLock(Slot(b.room, d)));
      assert SameAt(db, after, SlotLock(Slot(b.room, d)));
    }
    MovedStays(db.inventory, after.inventory, b, tx.days, tx.got, delta);
  }

  lemma FoundStays(inventory: Inventory, after: Inventory, b: Booking, days: seq<Day>, got: nat)
    requires Found(inventory, b, days, got) && forall s :: s in inventory ==> s in after
    ensures Found(after, b, days, got)
  {
  }

  // Reservations

  lemma GuestStays(db: Db, after: Db, tx: Tx)
    requires tx.program.Reserving? && tx.owned && tx.fate == Running && Past(tx, Greeting) && Untouched(db, after, tx)
    ensures GuestFor(after, tx.program.input, tx.draws) == GuestFor(db, tx.program.input, tx.draws)
    ensures GuestWrite(after, tx.program.input, tx.draws) == GuestWrite(db, tx.program.input, tx.draws)
  {
    assert Holds(tx, GuestLock(tx.program.input.email));
    assert SameAt(db, after, GuestLock(tx.program.input.email));
  }

  lemma DraftStays(db: Db, after: Db, tx: Tx)
    requires tx.program.Reserving? && tx.owned && tx.fate == Running && Past(tx, Drafting) && Untouched(db, after, tx)
    requires after.catalog == db.catalog && Drafted(db, tx)
    ensures Drafted(after, tx)
  {
    GuestStays(db, after, tx);
    assert Holds(tx, RowLock(tx.draws.id));
    assert SameAt(db, after, RowLock(tx.draws.id));
  }

  lemma KeyStays(db: Db, after: Db, tx: Tx)
    requires tx.program.Reserving? && tx.owned && tx.fate == Running && Untouched(db, after, tx)
    requires tx.program.input.key !in db.keys
    ensures tx.program.input.key !in after.keys
  {
    assert Holds(tx, KeyLock(tx.program.input.key));
    assert SameAt(db, after, KeyLock(tx.program.input.key));
  }

  lemma CreatedStays(db: Db, after: Db, tx: Tx)
    requires tx.program.Reserving? && tx.owned && tx.fate == Running && Past(tx, Creating) && Untouched(db, after, tx)
    requires Drafted(db, tx) && CanCreate(db, tx.booking.value)
    ensures CanCreate(after, tx.booking.value)
  {
    PlannedFacts(db.catalog, tx.program.input, tx.rates, GuestFor(db, tx.program.input, tx.draws), tx.draws);
    assert Holds(tx, RowLock(tx.draws.id)) && Holds(tx, RefLock(tx.draws.reference));
    assert SameAt(db, after, RowLock(tx.draws.id)) && SameAt(db, after, RefLock(tx.draws.reference));
  }

  predicate Early(s: Stage) {
    s == Quoting || s == Greeting || s == Drafting
  }

  predicate Middle(s: Stage) {
    s == Scanning || s == Locking || s == Moving
  }

  lemma EarlyStays(db: Db, after: Db, tx: Tx)
    requires tx.fate == Running && Early(tx.stage) && FreshOk(db, tx)
    requires Untouched(db, after, tx) && Evolves(db, after)
    ensures FreshOk(after, tx)
  {
    KeyStays(db, after, tx);
    if tx.stage == Drafting {
      GuestStays(db, after, tx);
    }
  }

  lemma MiddleStays(db: Db, after: Db, tx: Tx)
    requires tx.fate == Running && Middle(tx.stage) && FreshOk(db, tx)
    requires Untouched(db, after, tx) && Evolves(db, after)
    ensures FreshOk(after, tx)
  {
    hide Drafted, Found, GuestWrite, Untouched, Holds;
    KeyStays(db, after, tx);
    GuestStays(db, after, tx);
    DraftStays(db, after, tx);
    if tx.stage != Scanning {
      FoundStays(db.inventory, after.inventory, tx.booking.value, tx.days, tx.got);
    }
  }

  /** From the update of inventory on, everything the reservation rests on is locked. */
  lemma LatePiecesStay(db: Db, after: Db, tx: Tx)
    requires tx.fate == Running && tx.stage in {Creating, Recording, Announcing, Ending} && FreshOk(db, tx)
    requires Untouched(db, after, tx) && after.catalog == db.catalog
    ensures tx.program.Reserving? && tx.program.input.key !in after.keys && Drafted(after, tx)
    ensures GuestWrite(after, tx.program.input, tx.draws) == GuestWrite(db, tx.program.input, tx.draws)
    ensures Moved(after.inventory, tx.booking.value, tx.days, tx.got, 1)
    ensures MovedRows(after.inventory, tx.booking.value.room, DaysOf(tx.booking.value.stay), 1) ==
            MovedRows(db.inventory, tx.booking.value.room, DaysOf(tx.booking.value.stay), 1)
  {
    hide Drafted, Moved, MovedRows, GuestWrite, Untouched, Holds;
    KeyStays(db, after, tx);
    GuestStays(db, after, tx);
    DraftStays(db, after, tx);
    NightsAreSame(db, after, tx, 1);
  }

  lemma LateStays(db: Db, after: Db, tx: Tx)
    requires tx.fate == Running && tx.stage in {Recording, Announcing} && FreshOk(db, tx)
    requires Untouched(db, after, tx) && after.catalog == db.catalog
    ensures FreshOk(after, tx)
  {
    hide Drafted, CanCreate, Moved, MovedRows, GuestWrite, Untouched, Holds;
    LatePiecesStay(db, after, tx);
    CreatedStays(db, after, tx);
    StillFresh(db, after, tx);
  }

  lemma CreatingStays(db: Db, after: Db, tx: Tx)
    requires tx.fate == Running && tx.stage == Creating && FreshOk(db, tx)
    requires Untouched(db, after, tx) && after.catalog == db.catalog
    ensures FreshOk(after, tx)
  {
    LatePiecesStay(db, after, tx);
    StillFresh(db, after, tx);
  }

  lemma EventIsFree(db: Db, after: Db, tx: Tx)
    requires (tx.program.Reserving? && tx.owned) || (tx.program.Cancelling? && tx.booking.Some?)
    requires tx.fate == Running && tx.stage == Ending && Untouched(db, after, tx) && tx.draws.event !in db.outbox
    ensures tx.draws.event !in after.outbox
  {
    assert Holds(tx, MessageLock(tx.draws.event));
    assert SameAt(db, after, MessageLock(tx.draws.event));
  }

  lemma EndStays(db: Db, after: Db, tx: Tx)
    requires tx.fate == Running && tx.stage == Ending && FreshOk(db, tx)
    requires Untouched(db, after, tx) && after.catalog == db.catalog
    ensures FreshOk(after, tx)
  {
    hide Drafted, CanCreate, Moved, MovedRows, GuestWrite, Untouched, Holds;
    LatePiecesStay(db, after, tx);
    CreatedStays(db, after, tx);
    EventIsFree(db, after, tx);
    StillFreshAtEnd(db, after, tx);
  }

  lemma StillFresh(db: Db, after: Db, tx: Tx)
    requires tx.stage == Creating || tx.stage == Recording || tx.stage == Announcing
    requires FreshOk(db, tx) && tx.program.input.key !in after.keys && Drafted(after, tx)
    requires GuestWrite(after, tx.program.input, tx.draws) == GuestWrite(db, tx.program.input, tx.draws)
    requires Moved(after.inventory, tx.booking.value, tx.days, tx.got, 1)
    requires MovedRows(after.inventory, tx.booking.value.room, DaysOf(tx.booking.value.stay), 1) ==
             MovedRows(db.inventory, tx.booking.value.room, DaysOf(tx.booking.value.stay), 1)
    requires tx.stage != Creating ==> CanCreate(after, tx.booking.value)
    ensures FreshOk(after, tx)
  {
  }

  lemma StillFreshAtEnd(db: Db, after: Db, tx: Tx)
    requires tx.stage == Ending
    requires FreshOk(db, tx) && tx.program.input.key !in after.keys && Drafted(after, tx)
    requires GuestWrite(after, tx.program.input, tx.draws) == GuestWrite(db, tx.program.input, tx.draws)
    requires Moved(after.inventory, tx.booking.value, tx.days, tx.got, 1)
    requires MovedRows(after.inventory, tx.booking.value.room, DaysOf(tx.booking.value.stay), 1) ==
             MovedRows(db.inventory, tx.booking.value.room, DaysOf(tx.booking.value.stay), 1)
    requires CanCreate(after, tx.booking.value) && tx.draws.event !in after.outbox
    ensures FreshOk(after, tx)
  {
  }

  lemma FreshStays(db: Db, after: Db, tx: Tx)
    requires tx.fate == Running && FreshOk(db, tx)
    requires Untouched(db, after, tx) && Evolves(db, after)
    ensures FreshOk(after, tx)
  {
    if Early(tx.stage) {
      EarlyStays(db, after, tx);
    } else if Middle(tx.stage) {
      MiddleStays(db, after, tx);
    } else if tx.stage == Ending {
      EndStays(db, after, tx);
    } else if tx.stage == Creating {
      CreatingStays(db, after, tx);
    } else {
      LateStays(db, after, tx);
    }
  }

  lemma SameButStays(db: Db, after: Db, id: Uuid, b: Booking)
    requires SameBut(db, id, b) && Evolves(db, after)
    requires RecordsSound(db.reservations, db.nights) && RecordsSound(after.reservations, after.nights)
    ensures SameBut(after, id, b)
  {
    StoredReservationsRead(db, id);
    assert id in after.reservations && RowEvolves(db.reservations[id], after.reservations[id]);
    StoredReservationsRead(after, id);
    StoredEvolves(db.reservations[id], after.reservations[id], db.nights[id], id);
  }

  lemma StoredEvolves(row: ReservationRow, after: ReservationRow, rows: map<Day, Words.Int64>, id: Uuid)
    requires RecordSound(row, rows) && RecordSound(after, rows) && RowEvolves(row, after)
    ensures Stored(after, rows, id) == Stored(row, rows, id).(status := after.status, cancelledAt := after.cancelledAt)
    ensures row.status == Cancelled ==> after == row
  {
  }

  lemma ReplayStays(db: Db, after: Db, tx: Tx)
    requires ReplayOk(db, tx) && Evolves(db, after)
    requires RecordsSound(db.reservations, db.nights) && RecordsSound(after.reservations, after.nights)
    ensures ReplayOk(after, tx)
  {
    if tx.stage == Ending {
      SameButStays(db, after, tx.target, tx.booking.value);
    }
  }

  // Cancellations

  lemma ReadStays(db: Db, after: Db, tx: Tx)
    requires tx.program.Cancelling? && ReadOk(db, tx) && Evolves(db, after)
    requires RecordsSound(db.reservations, db.nights) && RecordsSound(after.reservations, after.nights)
    ensures ReadOk(after, tx)
  {
    SameButStays(db, after, tx.booking.value.id, tx.booking.value);
  }

  lemma GuardStays(db: Db, after: Db, tx: Tx)
    requires tx.program.Cancelling? && tx.fate == Running && Past(tx, Guarding) && Untouched(db, after, tx)
    requires tx.booking.Some? && Guarded(db, tx.booking.value, tx.draws.now)
    ensures Guarded(after, tx.booking.value, tx.draws.now)
    ensures GuardWrite(after, tx.booking.value, tx.draws.now) == GuardWrite(db, tx.booking.value, tx.draws.now)
  {
    assert Holds(tx, RowLock(tx.booking.value.id));
    assert SameAt(db, after, RowLock(tx.booking.value.id));
  }

  /** The confirmation of a reservation is one event, so later events do not come before it. */
  lemma FollowsStays(outbox: Outbox, after: Outbox, id: Uuid, row: ReservationRow, rowAfter: ReservationRow, event: int)
    requires ReservationAnnounced(outbox, id, row) && ReservationAnnounced(after, id, rowAfter)
    requires forall m :: m in outbox ==> m in after && after[m].aggregate == outbox[m].aggregate && after[m].kind == outbox[m].kind
    requires Follows(outbox, id, event)
    ensures Follows(after, id, event)
  {
    var before, now := EventsOf(outbox, id, ConfirmedEvent), EventsOf(after, id, ConfirmedEvent);
    forall m | m in before ensures m in now {
      assert m in outbox;
    }
    SubsetSize(before, now);
  }

  lemma GuestsStay(guests: map<string, Uuid>, after: map<string, Uuid>, g: Uuid)
    requires g in guests.Values && forall e :: e in guests ==> e in after && after[e] == guests[e]
    ensures g in after.Values
  {
    var e :| e in guests && guests[e] == g;
    assert e in after && after[e] == g;
  }

  lemma CancelEventStays(db: Db, after: Db, tx: Tx, b: Booking)
    requires tx.program.Cancelling? && tx.fate == Running && tx.stage == Ending && tx.booking == Some(b)
    requires Untouched(db, after, tx) && Evolves(db, after)
    requires EventsAgree(db.outbox, db.reservations) && EventsAgree(after.outbox, after.reservations)
    requires b.id in db.reservations && tx.draws.event !in db.outbox && Follows(db.outbox, b.id, tx.draws.event)
    ensures tx.draws.event !in after.outbox && Follows(after.outbox, b.id, tx.draws.event)
  {
    EventIsFree(db, after, tx);
    assert b.id in after.reservations;
    FollowsStays(db.outbox, after.outbox, b.id, db.reservations[b.id], after.reservations[b.id], tx.draws.event);
  }

  lemma StillReading(db: Db, after: Db, tx: Tx)
    requires !Past(tx, Guarding) && CancelOk(db, tx) && (tx.stage != Reading ==> ReadOk(after, tx))
    ensures CancelOk(after, tx)
  {
  }

  lemma CancelMiddleStays(db: Db, after: Db, tx: Tx)
    requires tx.fate == Running && Middle(tx.stage) && CancelOk(db, tx) && ReadOk(after, tx)
    requires Untouched(db, after, tx) && forall s :: s in db.inventory ==> s in after.inventory
    ensures CancelOk(after, tx)
  {
    GuardStays(db, after, tx);
    if tx.stage != Scanning {
      FoundStays(db.inventory, after.inventory, tx.booking.value, tx.days, tx.got);
    }
    StillCancelling(db, after, tx);
  }

  lemma StillCancelling(db: Db, after: Db, tx: Tx)
    requires Middle(tx.stage) && CancelOk(db, tx) && ReadOk(after, tx)
    requires Guarded(after, tx.booking.value, tx.draws.now)
    requires GuardWrite(after, tx.booking.value, tx.draws.now) == GuardWrite(db, tx.booking.value, tx.draws.now)
    requires tx.stage != Scanning ==> Found(after.inventory, tx.booking.value, tx.days, tx.got)
    ensures CancelOk(after, tx)
  {
  }

  lemma CancelLateStays(db: Db, after: Db, tx: Tx)
    requires tx.fate == Running && tx.stage == Announcing && CancelOk(db, tx) && ReadOk(after, tx)
    requires Untouched(db, after, tx)
    ensures CancelOk(after, tx)
  {
    GuardStays(db, after, tx);
    NightsAreSame(db, after, tx, -1);
    StillReleased(db, after, tx, tx.booking.value);
  }

  lemma CancelEndStays(db: Db, after: Db, tx: Tx, b: Booking)
    requires tx.fate == Running && tx.stage == Ending && CancelOk(db, tx) && ReadOk(after, tx) && tx.booking == Some(b)
    requires Untouched(db, after, tx) && after.catalog == db.catalog
    requires b.guest in after.guests.Values && tx.draws.event !in after.outbox
    requires Follows(after.outbox, b.id, tx.draws.event)
    ensures CancelOk(after, tx)
  {
    GuardStays(db, after, tx);
    NightsAreSame(db, after, tx, -1);
    StillCancelledAtEnd(db, after, tx, b);
  }

  lemma CancelStays(db: Db, after: Db, tx: Tx)
    requires tx.fate == Running && CancelOk(db, tx) && tx.stage != Reading
    requires Untouched(db, after, tx) && Evolves(db, after)
    requires RecordsSound(db.reservations, db.nights) && RecordsSound(after.reservations, after.nights)
    requires EventsAgree(db.outbox, db.reservations) && EventsAgree(after.outbox, after.reservations)
    ensures CancelOk(after, tx)
  {
    ReadStays(db, after, tx);
    if tx.stage == Ending {
      CancelEventStays(db, after, tx, tx.booking.value);
      GuestsStay(db.guests, after.guests, tx.booking.value.guest);
      CancelEndStays(db, after, tx, tx.booking.value);
    } else if tx.stage == Announcing {
      CancelLateStays(db, after, tx);
    } else if Middle(tx.stage) {
      CancelMiddleStays(db, after, tx);
    } else {
      StillReading(db, after, tx);
    }
  }

  lemma StillReleased(db: Db, after: Db, tx: Tx, b: Booking)
    requires tx.stage == Announcing && CancelOk(db, tx) && ReadOk(after, tx) && tx.booking == Some(b)
    requires Guarded(after, b, tx.draws.now) && Moved(after.inventory, b, tx.days, tx.got, -1)
    requires GuardWrite(after, b, tx.draws.now) == GuardWrite(db, b, tx.draws.now)
    requires MovedRows(after.inventory, b.room, DaysOf(b.stay), -1) == MovedRows(db.inventory, b.room, DaysOf(b.stay), -1)
    ensures CancelOk(after, tx)
  {
  }

  lemma StillCancelledAtEnd(db: Db, after: Db, tx: Tx, b: Booking)
    requires tx.stage == Ending && CancelOk(db, tx) && ReadOk(after, tx) && tx.booking == Some(b)
    requires after.catalog == db.catalog
    requires Guarded(after, b, tx.draws.now) && Moved(after.inventory, b, tx.days, tx.got, -1)
    requires GuardWrite(after, b, tx.draws.now) == GuardWrite(db, b, tx.draws.now)
    requires MovedRows(after.inventory, b.room, DaysOf(b.stay), -1) == MovedRows(db.inventory, b.room, DaysOf(b.stay), -1)
    requires b.guest in after.guests.Values && tx.draws.event !in after.outbox
    requires Follows(after.outbox, b.id, tx.draws.event)
    ensures CancelOk(after, tx)
  {
  }

  // Publishing inventory, and dispatching

  lemma StockingStays(db: Db, after: Db, tx: Tx)
    requires tx.program.Stocking? && tx.fate == Running && StockingOk(db, tx)
    requires Untouched(db, after, tx) && Evolves(db, after)
    ensures StockingOk(after, tx)
  {
    var rows := tx.writes.inventory;
    forall s | s in rows ensures UpsertedRow(after.inventory, s, Int16(tx.program.allotment)) ==
                                 UpsertedRow(db.inventory, s, Int16(tx.program.allotment)) {
      assert Holds(tx, SlotLock(s));
      assert SameAt(db, after, SlotLock(s));
    }
  }

  lemma DispatchStays(db: Db, after: Db, tx: Tx)
    requires tx.program.Dispatching? && tx.fate == Running && DispatchOk(db, tx)
    requires Untouched(db, after, tx)
    ensures DispatchOk(after, tx)
  {
    forall m | m in tx.picked ensures m in after.outbox && after.outbox[m] == db.outbox[m] {
      assert Holds(tx, MessageLock(m));
      assert SameAt(db, after, MessageLock(m));
    }
    assert forall m :: m in tx.picked[..tx.got] ==> m in tx.picked;
  }

  /** What is true of a running transaction survives the commits of others. */
  lemma TxOkStays(db: Db, after: Db, tx: Tx)
    requires tx.fate == Running && TxOk(db, tx)
    requires Untouched(db, after, tx) && Evolves(db, after) && Consistent(db) && Consistent(after)
    ensures TxOk(after, tx)
  {
    hide FreshOk, ReplayOk, CancelOk, StockingOk, DispatchOk, Untouched, Evolves, EventsAgree, RecordsSound;
    match tx.program
    case Reserving(_) =>
      if FreshOk(db, tx) {
        FreshStays(db, after, tx);
      } else {
        ReplayStays(db, after, tx);
      }
    case Cancelling(_) =>
      if tx.stage == Reading {
        StillReading(db, after, tx);
      } else {
        CancelStays(db, after, tx);
      }
    case Stocking(_, _, _, _) => StockingStays(db, after, tx);
    case Dispatching(_) => DispatchStays(db, after, tx);
  }
}
