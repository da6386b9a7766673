/** Every statement keeps what is true of its own transaction. */
module Steps {
  import opened Results
  import opened Words
  import opened Collections
  import opened Calendar
  import opened Stays
  import opened Pricing
  import opened Bookings
  import opened Tables
  import opened Transactions
  import opened Stock
  import opened Effects
  import opened Consistency
  import opened Interleaving
  import opened Invariants

  // Reservations

  lemma ClaimKept(db: Db, tx: Tx)
    requires tx.program.Reserving? && tx.stage == Claiming && ReplayOk(db, tx)
    ensures var after := ClaimStep(db, tx); ReplayOk(db, after) || FreshOk(db, after)
  {
  }

  /** Every committed key row points at a stored reservation: the key is never found in progress, and the row that
      was in the way is never gone. */
  lemma ReadKeyKept(db: Db, tx: Tx)
    requires tx.program.Reserving? && tx.stage == ReadingKey && ReplayOk(db, tx)
    requires KeysAgree(db.keys, db.reservations)
    ensures var after := ReadKeyStep(db, tx);
            after.fate == Failed(KeyReused) || (after.stage == Replaying && ReplayOk(db, after))
  {
  }

  lemma ReplayKept(db: Db, tx: Tx)
    requires tx.program.Reserving? && tx.stage == Replaying && ReplayOk(db, tx)
    requires KeysAgree(db.keys, db.reservations) && RecordsSound(db.reservations, db.nights)
    ensures var after := ReplayStep(db, tx);
            after.fate == tx.fate && after.stage == Ending && ReplayOk(db, after)
  {
    StoredReservationsRead(db, tx.target);
  }

  lemma QuoteKept(db: Db, tx: Tx)
    requires tx.program.Reserving? && tx.stage == Quoting && FreshOk(db, tx)
    ensures var after := QuoteStep(db, tx); after.fate.Failed? || FreshOk(db, after)
  {
    var input := tx.program.input;
    ReadRatesSound(db, input.plan, input.stay.checkIn, input.stay.checkOut);
  }

  lemma GreetKept(db: Db, tx: Tx, e: Env)
    requires tx.program.Reserving? && tx.stage == Greeting && FreshOk(db, tx)
    ensures FreshOk(db, GreetStep(db, tx, e))
  {
  }

  lemma DraftKept(db: Db, tx: Tx, e: Env)
    requires tx.program.Reserving? && tx.stage == Drafting && FreshOk(db, tx)
    requires e.id !in db.reservations
    ensures var after := DraftStep(db, tx, e); after.fate.Failed? || FreshOk(db, after)
  {
    assert tx.writes.guests[tx.program.input.email] == GuestFor(db, tx.program.input, tx.draws);
  }

  lemma CreateKept(db: Db, tx: Tx)
    requires tx.program.Reserving? && tx.stage == Creating && FreshOk(db, tx)
    ensures var after := CreateStep(db, tx); after.fate.Failed? || FreshOk(db, after)
  {
    var b := tx.booking.value;
    CreateEffect(db, b);
    if CanCreate(db, b) {
      WasCreated(db, tx, b, CreateStep(db, tx));
    }
  }

  lemma WasCreated(db: Db, tx: Tx, b: Booking, after: Tx)
    requires tx.program.Reserving? && tx.stage == Creating && FreshOk(db, tx)
    requires tx.booking == Some(b) && CanCreate(db, b)
    requires after == tx.(stage := Recording,
                          writes := tx.writes.(reservations := map[b.id := RowOf(b)], refs := map[b.reference := b.id],
                                               nights := map[b.id := NightRows(b.nights)]))
    ensures FreshOk(db, after)
  {
  }

  lemma RecordKept(db: Db, tx: Tx)
    requires tx.program.Reserving? && tx.stage == Recording && FreshOk(db, tx)
    ensures var after := RecordStep(db, tx); after.fate == tx.fate && FreshOk(db, after)
  {
    var input, b := tx.program.input, tx.booking.value;
    Recorded(db, input, tx.draws, b);
    WasRecorded(db, tx, b, RecordStep(db, tx));
  }

  lemma Recorded(db: Db, input: ReserveInput, d: Draws, b: Booking)
    ensures var w := RowsWrite(db, input, d, b);
            && w.keys == map[input.key := KeyRow(input.hash, None)]
            && w.(keys := w.keys[input.key := KeyRow(input.hash, Some(b.id))]) == RecordWrite(db, input, d, b)
  {
    assert map[input.key := KeyRow(input.hash, None)][input.key := KeyRow(input.hash, Some(b.id))] ==
           map[input.key := KeyRow(input.hash, Some(b.id))];
  }

  lemma WasRecorded(db: Db, tx: Tx, b: Booking, after: Tx)
    requires tx.program.Reserving? && tx.stage == Recording && FreshOk(db, tx) && tx.booking == Some(b)
    requires after == tx.(stage := Announcing, writes := RecordWrite(db, tx.program.input, tx.draws, b))
    ensures FreshOk(db, after)
  {
    hide RecordWrite, RowsWrite;
  }

  /** The number of the event plays no part in the draft. */
  lemma PlannedAnyEvent(catalog: Catalog, input: ReserveInput, rates: Result<seq<RateDay>>, guest: Uuid, d: Draws,
                        number: int)
    ensures Planned(catalog, input, rates, guest, d.(event := number)) == Planned(catalog, input, rates, guest, d)
  {
  }

  lemma ConfirmKept(db: Db, tx: Tx, number: int)
    requires tx.program.Reserving? && tx.stage == Announcing && FreshOk(db, tx)
    requires number !in db.outbox
    ensures FreshOk(db, AnnounceStep(db, tx, number))
  {
    var input := tx.program.input;
    PlannedAnyEvent(db.catalog, input, tx.rates, GuestFor(db, input, tx.draws), tx.draws, number);
  }

  // Inventory

  lemma {:induction false} AscendingAtLeast(s: seq<int>, a: int, i: nat)
    requires StrictlyAscending(s) && i < |s| && forall x :: x in s ==> a <= x
    ensures a + i <= s[i]
  {
    assert s[i] in s;
    if i == 0 {
    } else {
      AscendingAtLeast(s, a, i - 1);
    }
  }

  lemma {:induction false} AscendingAtMost(s: seq<int>, b: int, i: nat)
    requires StrictlyAscending(s) && i < |s| && forall x :: x in s ==> x < b
    ensures s[i] <= b - |s| + i
    decreases |s| - i
  {
    assert s[i] in s;
    if i + 1 == |s| {
    } else {
      AscendingAtMost(s, b, i + 1);
    }
  }

  /** As many days as nights, all of them of the stay: they are its days. */
  lemma AllDaysFound(days: seq<Day>, stay: Stay)
    requires StrictlyAscending(days) && |days| == Nights(stay)
    requires forall d :: d in days ==> stay.checkIn <= d < stay.checkOut
    ensures days == DaysOf(stay)
  {
    forall i | 0 <= i < |days| ensures days[i] == DaysOf(stay)[i] {
      AscendingAtLeast(days, stay.checkIn, i);
      AscendingAtMost(days, stay.checkOut, i);
    }
  }

  lemma MoveMeans(inventory: Inventory, room: Uuid, stay: Stay, days: seq<Day>, delta: int)
    requires StrictlyAscending(days) && |days| == Nights(stay)
    requires forall d :: d in days ==> stay.checkIn <= d < stay.checkOut && Slot(room, d) in inventory
    ensures days == DaysOf(stay)
    ensures MoveError(inventory, room, days, delta) == None <==> CanMove(inventory, room, stay, delta)
  {
    AllDaysFound(days, stay);
    MoveErrorIff(inventory, room, days, delta);
  }

  lemma ScanFinds(db: Db, tx: Tx)
    requires tx.booking.Some?
    ensures var after := ScanStep(db, tx); Found(db.inventory, tx.booking.value, after.days, after.got)
  {
  }

  lemma ScanKept(db: Db, tx: Tx)
    requires tx.program.Reserving? && tx.stage == Scanning && FreshOk(db, tx)
    ensures FreshOk(db, ScanStep(db, tx))
  {
    ScanFinds(db, tx);
  }

  lemma LockKept(db: Db, tx: Tx)
    requires tx.program.Reserving? && tx.stage == Locking && FreshOk(db, tx)
    ensures FreshOk(db, LockStep(tx))
  {
  }

  lemma CancelLockKept(db: Db, tx: Tx)
    requires tx.program.Cancelling? && tx.stage == Locking && CancelOk(db, tx)
    ensures CancelOk(db, LockStep(tx))
  {
  }

  lemma ReadStay(db: Db, b: Booking)
    requires RecordsSound(db.reservations, db.nights) && b.id in db.reservations && SameBut(db, b.id, b)
    ensures db.reservations[b.id].room == b.room
    ensures b.stay == Span(db.reservations[b.id].checkIn, db.reservations[b.id].checkOut)
  {
    StoredReservationsRead(db, b.id);
  }

  /** The row a cancellation holds is still confirmed as committed, so every night can be released. */
  lemma ReleaseBearable(db: Db, b: Booking, now: Instant)
    requires RowsInBounds(db.inventory) && CountersAgree(db.inventory, db.reservations)
    requires RecordsSound(db.reservations, db.nights) && SameBut(db, b.id, b) && Guarded(db, b, now)
    ensures CanMove(db.inventory, b.room, b.stay, -1)
  {
    ReadStay(db, b);
    ReleaseNeverFails(db.inventory, db.reservations, b.id, b.stay);
  }

  lemma CancelScanKept(db: Db, tx: Tx)
    requires tx.program.Cancelling? && tx.stage == Scanning && CancelOk(db, tx)
    requires RowsInBounds(db.inventory) && CountersAgree(db.inventory, db.reservations)
    requires RecordsSound(db.reservations, db.nights)
    ensures CancelOk(db, ScanStep(db, tx))
  {
    var b := tx.booking.value;
    ReleaseBearable(db, b, tx.draws.now);
    CanMoveIff(db.inventory, b.room, b.stay, -1);
    RowCountIsCoverage(db.inventory, b.room, b.stay);
    ScanFinds(db, tx);
    WasScanned(db, tx, b, ScanStep(db, tx));
  }

  lemma WasScanned(db: Db, tx: Tx, b: Booking, after: Tx)
    requires tx.program.Cancelling? && tx.stage == Scanning && CancelOk(db, tx) && tx.booking == Some(b)
    requires Found(db.inventory, b, after.days, 0) && after.days == DaysOf(b.stay)
    requires after == tx.(stage := Locking, days := after.days, got := 0)
    ensures CancelOk(db, after)
  {
  }

  lemma MoveMeansMoved(db: Db, tx: Tx)
    requires tx.booking.Some? && Found(db.inventory, tx.booking.value, tx.days, tx.got) && tx.got == |tx.days|
    requires MoveStep(db, tx).fate == tx.fate == Running
    ensures Moved(db.inventory, tx.booking.value, tx.days, tx.got, Delta(tx.program))
    ensures MoveStep(db, tx).writes.inventory ==
            MovedRows(db.inventory, tx.booking.value.room, DaysOf(tx.booking.value.stay), Delta(tx.program))
  {
    var b := tx.booking.value;
    MoveMeans(db.inventory, b.room, b.stay, tx.days, Delta(tx.program));
  }

  lemma MoveKept(db: Db, tx: Tx)
    requires tx.program.Reserving? && tx.stage == Moving && tx.fate == Running && FreshOk(db, tx)
    ensures MoveStep(db, tx).fate.Failed? || FreshOk(db, MoveStep(db, tx))
  {
    if MoveStep(db, tx).fate == Running {
      MoveMeansMoved(db, tx);
      MovedOk(db, tx, MoveStep(db, tx));
    }
  }

  lemma MovedOk(db: Db, tx: Tx, after: Tx)
    requires tx.program.Reserving? && tx.stage == Moving && FreshOk(db, tx)
    requires Moved(db.inventory, tx.booking.value, tx.days, tx.got, 1)
    requires after == tx.(stage := Creating,
                          writes := tx.writes.(inventory := MovedRows(db.inventory, tx.booking.value.room,
                                                                      DaysOf(tx.booking.value.stay), 1)))
    ensures FreshOk(db, after)
  {
  }

  /** The release of a cancellation that got this far never fails. */
  lemma ReleaseSucceeds(db: Db, tx: Tx)
    requires tx.program.Cancelling? && tx.stage == Moving && tx.fate == Running && CancelOk(db, tx)
    requires RowsInBounds(db.inventory) && CountersAgree(db.inventory, db.reservations)
    requires RecordsSound(db.reservations, db.nights)
    ensures MoveStep(db, tx).fate == Running && MoveStep(db, tx).stage == Announcing
  {
    hide CanMove, RecordsSound, Found;
    var b := tx.booking.value;
    ReleaseBearable(db, b, tx.draws.now);
    CanMoveIff(db.inventory, b.room, b.stay, -1);
    RowCountIsCoverage(db.inventory, b.room, b.stay);
  }

  lemma ReleaseKept(db: Db, tx: Tx)
    requires tx.program.Cancelling? && tx.stage == Moving && tx.fate == Running && CancelOk(db, tx)
    requires MoveStep(db, tx).fate == Running
    ensures CancelOk(db, MoveStep(db, tx))
  {
    MoveMeansMoved(db, tx);
    ReleasedOk(db, tx, MoveStep(db, tx));
  }

  lemma ReleasedOk(db: Db, tx: Tx, after: Tx)
    requires tx.program.Cancelling? && tx.stage == Moving && CancelOk(db, tx)
    requires Moved(db.inventory, tx.booking.value, tx.days, tx.got, -1)
    requires after == tx.(stage := Announcing,
                          writes := tx.writes.(inventory := MovedRows(db.inventory, tx.booking.value.room,
                                                                      DaysOf(tx.booking.value.stay), -1)))
    ensures CancelOk(db, after)
  {
  }

  // Cancellations

  /** The reservation as read: stored, confirmed, and one that can be assessed. */
  lemma ReadFinds(db: Db, tx: Tx, e: Env, b: Booking)
    requires tx.program.Cancelling?
    requires RefsAgree(db.reservations, db.refs) && RecordsSound(db.reservations, db.nights)
    requires ByReference(db, tx.program.reference) == Ok(b) && Assess(db.catalog, b, e.now).Ok?
    ensures b.status == Confirmed && b.cancelledAt == None && b.reference == tx.program.reference
    ensures b.reference in db.refs && db.refs[b.reference] == b.id && ByID(db, b.id) == Ok(b)
  {
    ReferencesRead(db, tx.program.reference);
    StoredReservationsRead(db, db.refs[tx.program.reference]);
  }

  lemma ReadKept(db: Db, tx: Tx, e: Env)
    requires tx.program.Cancelling? && tx.stage == Reading && CancelOk(db, tx)
    requires RefsAgree(db.reservations, db.refs) && RecordsSound(db.reservations, db.nights)
    ensures ReadStep(db, tx, e).fate.Failed? || CancelOk(db, ReadStep(db, tx, e))
  {
    var read := ByReference(db, tx.program.reference);
    if read.Ok? {
      if Assess(db.catalog, read.value, e.now).Ok? {
        ReadFinds(db, tx, e, read.value);
        WasRead(db, tx, e, read.value, ReadStep(db, tx, e));
      }
    }
  }

  lemma WasRead(db: Db, tx: Tx, e: Env, b: Booking, after: Tx)
    requires tx.program.Cancelling? && tx.stage == Reading && CancelOk(db, tx)
    requires b.status == Confirmed && b.cancelledAt == None && b.reference == tx.program.reference
    requires b.reference in db.refs && db.refs[b.reference] == b.id && ByID(db, b.id) == Ok(b)
    requires Assess(db.catalog, b, e.now).Ok?
    requires after == tx.(stage := Guarding, draws := tx.draws.(now := e.now), booking := Some(b))
    ensures CancelOk(db, after)
  {
  }

  lemma GuardKept(db: Db, tx: Tx)
    requires tx.program.Cancelling? && tx.stage == Guarding && CancelOk(db, tx)
    requires RecordsSound(db.reservations, db.nights)
    ensures GuardStep(db, tx).fate.Failed? || CancelOk(db, GuardStep(db, tx))
  {
    var b, now := tx.booking.value, tx.draws.now;
    if CancelRow(db, CancelledAt(b, now)).result.Ok? {
      assert RecordSound(db.reservations[b.id], db.nights[b.id]);
      WasGuarded(db, tx, GuardStep(db, tx));
    }
  }

  lemma WasGuarded(db: Db, tx: Tx, after: Tx)
    requires tx.program.Cancelling? && tx.stage == Guarding && CancelOk(db, tx)
    requires Guarded(db, tx.booking.value, tx.draws.now)
    requires after == tx.(stage := Scanning, writes := GuardWrite(db, tx.booking.value, tx.draws.now))
    ensures CancelOk(db, after)
  {
  }

  lemma CancelEventKept(db: Db, tx: Tx, number: int)
    requires tx.program.Cancelling? && tx.stage == Announcing && CancelOk(db, tx)
    requires forall e :: e in db.outbox ==> e < number
    ensures AnnounceStep(db, tx, number).fate.Failed? || CancelOk(db, AnnounceStep(db, tx, number))
  {
    assert number !in db.outbox;
    assert Follows(db.outbox, tx.booking.value.id, number);
    assert db.guests + tx.writes.guests == db.guests;
    if tx.booking.value.guest in db.guests.Values {
      WasAnnounced(db, tx, number, AnnounceStep(db, tx, number));
    }
  }

  lemma WasAnnounced(db: Db, tx: Tx, number: int, after: Tx)
    requires tx.program.Cancelling? && tx.stage == Announcing && CancelOk(db, tx)
    requires number !in db.outbox && Follows(db.outbox, tx.booking.value.id, number)
    requires tx.booking.value.guest in db.guests.Values
    requires after == tx.(stage := Ending, draws := tx.draws.(event := number),
                          writes := CancelWrite(db, tx.booking.value, tx.draws.now, number))
    ensures CancelOk(db, after)
  {
  }

  // Publishing inventory

  lemma CheckKept(db: Db, tx: Tx)
    requires tx.program.Stocking? && tx.stage == Checking && StockingOk(db, tx)
    ensures var after := CheckStep(db, tx); after.fate.Failed? || StockingOk(db, after)
  {
  }

  lemma UpsertOneMore(inventory: Inventory, room: Uuid, from: Day, day: Day, next: Day, allotment: int,
                      rows: Inventory, more: Inventory)
    requires from <= day && next == day + 1
    requires 0 <= allotment && NotOversold(UpsertedRow(inventory, Slot(room, day), allotment))
    requires Upserted(inventory, room, from, day, allotment, rows)
    requires more == rows[Slot(room, day) := UpsertedRow(inventory, Slot(room, day), allotment)]
    ensures Upserted(inventory, room, from, next, allotment, more)
  {
  }

  lemma UpsertedMeans(inventory: Inventory, room: Uuid, from: Day, until: Day, allotment: int, rows: Inventory)
    requires from < until && Upserted(inventory, room, from, until, allotment, rows)
    ensures UpsertError(inventory, room, from, until, allotment) == None
    ensures rows == UpsertedRows(inventory, room, from, until, allotment)
  {
    UpsertErrorIff(inventory, room, from, until, allotment);
    forall d | from <= d < until ensures NotOversold(UpsertedRow(inventory, Slot(room, d), allotment)) {
      assert Slot(room, d) in rows;
    }
  }

  lemma UpsertKept(db: Db, tx: Tx)
    requires tx.program.Stocking? && tx.stage == Upserting && StockingOk(db, tx)
    ensures UpsertStep(db, tx).fate.Failed? || StockingOk(db, UpsertStep(db, tx))
  {
    var p, allotment := tx.program, Int16(tx.program.allotment);
    var day := p.from + tx.got;
    if day < p.until && 0 <= allotment && NotOversold(UpsertedRow(db.inventory, Slot(p.room, day), allotment)) {
      UpsertSucceeds(db, tx, day, allotment, UpsertStep(db, tx));
    }
  }

  lemma UpsertSucceeds(db: Db, tx: Tx, day: Day, allotment: int, after: Tx)
    requires tx.program.Stocking? && tx.stage == Upserting && StockingOk(db, tx)
    requires day == tx.program.from + tx.got < tx.program.until && allotment == Int16(tx.program.allotment)
    requires 0 <= allotment && NotOversold(UpsertedRow(db.inventory, Slot(tx.program.room, day), allotment))
    requires after == tx.(got := tx.got + 1,
                          writes := tx.writes.(inventory := tx.writes.inventory[Slot(tx.program.room, day) :=
                            UpsertedRow(db.inventory, Slot(tx.program.room, day), allotment)]))
    ensures StockingOk(db, after)
  {
    UpsertOneMore(db.inventory, tx.program.room, tx.program.from, day, day + 1, allotment, tx.writes.inventory,
                  after.writes.inventory);
    OneMoreKept(db, tx, day + 1, allotment, after);
  }

  lemma OneMoreKept(db: Db, tx: Tx, reached: Day, allotment: int, after: Tx)
    requires tx.program.Stocking? && tx.stage == Upserting && StockingOk(db, tx)
    requires after == tx.(got := after.got, writes := tx.writes.(inventory := after.writes.inventory))
    requires reached == tx.program.from + after.got <= tx.program.until && allotment == Int16(tx.program.allotment)
    requires Upserted(db.inventory, tx.program.room, tx.program.from, reached, allotment, after.writes.inventory)
    ensures StockingOk(db, after)
  {
  }

  // Dispatching

  lemma CandidatesAre(outbox: Outbox, batch: nat, skip: set<int>)
    ensures var ids := Candidates(outbox, batch, skip);
            && Distinct(ids) && |ids| <= batch
            && (forall m :: m in ids ==> m in outbox && Eligible(outbox[m]) && m !in skip)
  {
    var free := EligibleIds(outbox) - skip;
    var all := Ascending(free);
    var ids := Candidates(outbox, batch, skip);
    assert forall m :: m in ids ==> m in all;
    assert forall m :: m in all ==> m in free;
  }

  lemma PickKept(db: Db, tx: Tx, skip: set<int>)
    requires tx.program.Dispatching? && tx.stage == Picking && DispatchOk(db, tx)
    ensures DispatchOk(db, PickStep(db, tx, skip))
  {
    CandidatesAre(db.outbox, tx.program.batch, skip);
  }

  lemma SendKept(db: Db, tx: Tx, e: Env)
    requires tx.program.Dispatching? && tx.stage == Sending && DispatchOk(db, tx)
    ensures DispatchOk(db, SendStep(db, tx, e))
  {
    if tx.got < |tx.picked| {
      var m := tx.picked[tx.got];
      assert m in tx.picked;
      assert tx.picked[..tx.got + 1] == tx.picked[..tx.got] + [m];
    }
  }
}
