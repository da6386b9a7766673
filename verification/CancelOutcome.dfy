/** What cancelling comes to, in terms of the stored rows alone: when it succeeds, what it then writes and refunds, and
    which refusal answers which obstacle. */
module CancelOutcome {
  import opened Results
  import opened Calendar
  import opened Stays
  import opened Moneys
  import opened Bookings
  import opened Tables
  import opened Transactions
  import opened Stock
  import opened Effects
  import opened Consistency
  import opened Rows

  /** The row stored under a reference. */
  function RowUnder(db: Db, reference: string): ReservationRow
    requires reference in db.refs && db.refs[reference] in db.reservations
  {
    db.reservations[db.refs[reference]]
  }

  /** The plan of a stored reservation. */
  ghost predicate PlanOfRow(db: Db, row: ReservationRow, rp: RatePlan) {
    PlanIs(db.catalog, row.plan, rp)
  }

  /** What is read is the stored row. */
  lemma ReadRow(db: Db, reference: string)
    requires Consistent(db)
    ensures reference in db.refs ==>
              && db.refs[reference] in db.reservations && RowUnder(db, reference).reference == reference
              && ByReference(db, reference).Ok?
              && IsRow(db, db.refs[reference], ByReference(db, reference).value)
              && (RowUnder(db, reference).status == Cancelled <==> RowUnder(db, reference).cancelledAt != None)
  {
    hide Consistent, CountersAgree, RowsInBounds, EventsAgree, KeysAgree, RefsAgree, ByReference, IsRow;
    Agreements(db);
    RowsRead(db);
    assert ByReference(db, reference) == ByReference(db, reference);
  }

  /** A cancellation commits exactly when the reference is stored, its row is confirmed, check-in day has not begun, and
      the number of the event is unused; otherwise it leaves the tables as they were, and the first of these that fails
      gives the answer. */
  lemma CancelIff(db: Db, reference: string, now: Instant, event: int)
    requires Consistent(db)
    ensures reference in db.refs ==> db.refs[reference] in db.reservations
    ensures var o := CancelTx(db, reference, now, event);
            && (o.result.Ok? <==>
                  && reference in db.refs && RowUnder(db, reference).status == Confirmed
                  && now < RowUnder(db, reference).checkIn * NANOS_PER_DAY && event !in db.outbox)
            && (o.result.Err? ==> o.db == db)
            && (o.result.Err? ==>
                  o.result.error ==
                  (if reference !in db.refs then RecordNotFound
                   else if RowUnder(db, reference).status == Cancelled then AlreadyCancelled
                   else if RowUnder(db, reference).checkIn * NANOS_PER_DAY <= now then StayStarted
                   else DatabaseError))
  {
    hide Consistent, CancelTx, ByReference, CanCancel, CancelledDb;
    CancelEffect(db, reference, now, event);
    if reference !in db.refs {
      UnknownReference(db, reference, now, event);
    } else {
      ReadRow(db, reference);
      Assessed(db, reference, now);
      if RowUnder(db, reference).status == Confirmed && now < RowUnder(db, reference).checkIn * NANOS_PER_DAY {
        AssessedIsWithdrawn(db, reference, now, event);
      } else {
        NotAssessed(db, reference, now, event);
      }
    }
  }

  lemma UnknownReference(db: Db, reference: string, now: Instant, event: int)
    requires reference !in db.refs
    ensures CancelTx(db, reference, now, event) == Outcome(Err(RecordNotFound), db)
  {
  }

  /** Which reservations can be cancelled, which refusal the others give, and what is refunded. */
  lemma Assessed(db: Db, reference: string, now: Instant)
    requires Consistent(db) && reference in db.refs && db.refs[reference] in db.reservations
    requires ByReference(db, reference).Ok?
    ensures var b, row := ByReference(db, reference).value, RowUnder(db, reference);
            && (row.status == Cancelled ==> Assess(db.catalog, b, now) == Err(AlreadyCancelled))
            && (row.status == Confirmed && row.checkIn * NANOS_PER_DAY <= now ==>
                  Assess(db.catalog, b, now) == Err(StayStarted))
            && (row.status == Confirmed && now < row.checkIn * NANOS_PER_DAY ==>
                  && Assess(db.catalog, b, now).Ok?
                  && exists rp :: PlanOfRow(db, row, rp)
                                  && Assess(db.catalog, b, now).value ==
                                     CancelResult(CancelledAt(b, now), CancellationAt(b, now, rp.refundableUntilHours)))
  {
    hide Consistent, CountersAgree, RowsInBounds, EventsAgree, KeysAgree, RecordsSound, ByReference, FindPlan, PlanIs,
         CancellationAt;
    Agreements(db);
    ReadRow(db, reference);
    PlanFound(db.catalog, RowUnder(db, reference).plan);
  }

  lemma NotAssessed(db: Db, reference: string, now: Instant, event: int)
    requires ByReference(db, reference).Ok? && Assess(db.catalog, ByReference(db, reference).value, now).Err?
    ensures CancelTx(db, reference, now, event) ==
            Outcome(Err(Assess(db.catalog, ByReference(db, reference).value, now).error), db)
  {
    hide ByReference, Assess;
  }

  /** What can be cancelled can be written, unless the number of the event is used. */
  lemma AssessedIsWithdrawn(db: Db, reference: string, now: Instant, event: int)
    requires Consistent(db) && reference in db.refs && db.refs[reference] in db.reservations
    requires RowUnder(db, reference).status == Confirmed && now < RowUnder(db, reference).checkIn * NANOS_PER_DAY
    ensures CanCancel(db, reference, now, event) <==> event !in db.outbox
    ensures event in db.outbox ==> CancelTx(db, reference, now, event) == Outcome(Err(DatabaseError), db)
  {
    hide Consistent, ByReference, Assess, CancelledAt, CanWithdraw, Withdraw;
    ReadRow(db, reference);
    Assessed(db, reference, now);
    var r := Assess(db.catalog, ByReference(db, reference).value, now).value;
    assert r.booking == CancelledAt(ByReference(db, reference).value, now);
    Withdrawn(db, reference, now, r.cancellation, event);
  }

  lemma Withdrawn(db: Db, reference: string, now: Instant, c: Cancellation, event: int)
    requires Consistent(db) && reference in db.refs && db.refs[reference] in db.reservations
    requires RowUnder(db, reference).status == Confirmed && ByReference(db, reference).Ok?
    ensures var b := CancelledAt(ByReference(db, reference).value, now);
            && (CanWithdraw(db, b, event) <==> event !in db.outbox)
            && (event in db.outbox ==> Withdraw(db, b, c, event).result == Err(DatabaseError))
  {
    hide Consistent, CountersAgree, EventsAgree, KeysAgree, RecordsSound, ByReference, CanMove, Move, RowsInBounds,
         CancelledAt, RowAccepted;
    Agreements(db);
    ReadRow(db, reference);
    var read := ByReference(db, reference).value;
    ReleaseNeverFails(db.inventory, db.reservations, read.id, read.stay);
    CancelledIs(db, reference, now);
    var b := CancelledAt(read, now);
    var db1 := db.(reservations := db.reservations[b.id := CancelledRow(db, b)]);
    MoveSucceedsIff(db1, b.room, b.stay, -UNITS_PER_RESERVATION);
  }

  lemma CancelledIs(db: Db, reference: string, now: Instant)
    requires Consistent(db) && reference in db.refs && db.refs[reference] in db.reservations
    requires ByReference(db, reference).Ok?
    ensures var c := CancelledAt(ByReference(db, reference).value, now);
            && c == ByReference(db, reference).value.(status := c.status, cancelledAt := c.cancelledAt)
            && c.status == Cancelled && c.cancelledAt == Some(now)
            && RowAccepted(RowUnder(db, reference).(status := c.status, cancelledAt := c.cancelledAt))
            && c.guest in db.guests.Values
  {
    hide Consistent, CountersAgree, RowsInBounds, EventsAgree, KeysAgree, ByReference;
    Agreements(db);
    ReadRow(db, reference);
  }

  /** The effect of a cancellation that commits, in terms of what it was assessed to be. */
  lemma CancelledEffect(db: Db, reference: string, now: Instant, event: int) returns (rp: RatePlan)
    requires Consistent(db) && CancelTx(db, reference, now, event).result.Ok?
    ensures reference in db.refs && db.refs[reference] in db.reservations && ByReference(db, reference).Ok?
    ensures PlanIs(db.catalog, RowUnder(db, reference).plan, rp)
    ensures var b := ByReference(db, reference).value;
            var r := CancelResult(CancelledAt(b, now), CancellationAt(b, now, rp.refundableUntilHours));
            CancelTx(db, reference, now, event) == Outcome(Ok(r), CancelledDb(db, r, event))
  {
    hide Consistent, CancelTx, ByReference, CanCancel, CancelledDb, Assess, CancellationAt, CancelledAt, PlanIs;
    CancelIff(db, reference, now, event);
    ReadRow(db, reference);
    Assessed(db, reference, now);
    CancelEffect(db, reference, now, event);
    var b := ByReference(db, reference).value;
    rp :| PlanOfRow(db, RowUnder(db, reference), rp)
          && Assess(db.catalog, b, now).value ==
             CancelResult(CancelledAt(b, now), CancellationAt(b, now, rp.refundableUntilHours));
  }

  /** A cancellation that commits marks the row cancelled at that moment and leaves every other reservation alone; gives
      back one unit of each night of the stay, of no other slot; inserts one event, waiting to be sent, that says so;
      and touches nothing else. */
  lemma CancelWrites(db: Db, reference: string, now: Instant, event: int)
    requires Consistent(db) && CancelTx(db, reference, now, event).result.Ok?
    ensures reference in db.refs && db.refs[reference] in db.reservations
    ensures var after, id, row := CancelTx(db, reference, now, event).db, db.refs[reference], RowUnder(db, reference);
            && after == db.(reservations := after.reservations, inventory := after.inventory, outbox := after.outbox)
            && after.reservations == db.reservations[id := row.(status := Cancelled, cancelledAt := Some(now))]
            && after.inventory.Keys == db.inventory.Keys
            && (forall slot :: slot in db.inventory ==>
                  after.inventory[slot] ==
                  (if slot.room == row.room && row.checkIn <= slot.day < row.checkOut
                   then InventoryRow(db.inventory[slot].allotment, db.inventory[slot].booked - 1) else db.inventory[slot]))
            && event in after.outbox && after.outbox == db.outbox[event := after.outbox[event]]
    ensures var o, id, row := CancelTx(db, reference, now, event), db.refs[reference], RowUnder(db, reference);
            && ValidSpan(Span(row.checkIn, row.checkOut))
            && o.db.outbox[event] ==
               Message(id, CancelledEvent,
                       Payload(reference, Cancelled, Span(row.checkIn, row.checkOut), row.guestCount,
                               Money(row.totalCents, row.currency), o.result.value.cancellation.refund.cents,
                               o.result.value.cancellation.refundable),
                       false, 0)
  {
    hide Consistent, CancelTx, ByReference, CancellationAt, PlanIs;
    ReadRow(db, reference);
    var rp := CancelledEffect(db, reference, now, event);
  }

  /** What is refunded, where the hours of the plan fit a duration: the whole total if and only if the cancellation
      comes that many hours before check-in day begins, and nothing otherwise. */
  lemma CancelRefunds(db: Db, reference: string, now: Instant, event: int, rp: RatePlan)
    requires Consistent(db) && CancelTx(db, reference, now, event).result.Ok?
    ensures reference in db.refs && db.refs[reference] in db.reservations
    ensures PlanIs(db.catalog, RowUnder(db, reference).plan, rp) && 0 <= rp.refundableUntilHours <= MAX_EXACT_HOURS ==>
              var c, row := CancelTx(db, reference, now, event).result.value.cancellation, RowUnder(db, reference);
              && c.at == now && c.refund.currency == row.currency
              && (c.refundable <==> now < row.checkIn * NANOS_PER_DAY - rp.refundableUntilHours * NANOS_PER_HOUR)
              && c.refund.cents == (if c.refundable then row.totalCents else 0)
  {
    hide Consistent, CancelTx, ByReference, PlanIs, CancelledDb, CancelledAt, Deadline;
    ReadRow(db, reference);
    var found := CancelledEffect(db, reference, now, event);
    PlanFound(db.catalog, RowUnder(db, reference).plan);
    if PlanIs(db.catalog, RowUnder(db, reference).plan, rp) && 0 <= rp.refundableUntilHours <= MAX_EXACT_HOURS {
      RefundIff(ByReference(db, reference).value, now, rp.refundableUntilHours);
    }
  }
}
